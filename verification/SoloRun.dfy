/**
 What a thread of the hash set does when it runs alone: get_bucket, and the list calls on a list of one or two nodes.
 */
module SoloRun {
  import opened HashSet
  import L = ListCore
  import S = SplitOrder

  // ---------------------------------------------------------------- list calls

  predicate CallSteps(m: L.Mem, l: L.Local, m': L.Mem, l': L.Local) {
    !l.pc.Answer? && L.Step(m, l).0 == m' && L.Step(m, l).1 == l'
  }

  /** The i-th instruction of this run of a list call. */
  predicate CallLinked(p: seq<(L.Mem, L.Local)>, i: nat) {
    i + 1 < |p| ==> CallSteps(p[i].0, p[i].1, p[i + 1].0, p[i + 1].1)
  }

  ghost predicate IsCallRun(p: seq<(L.Mem, L.Local)>, m: L.Mem, l: L.Local, m': L.Mem, l': L.Local) {
    p != [] && p[0] == (m, l) && p[|p| - 1] == (m', l') && forall i: nat {:trigger CallLinked(p, i)} :: CallLinked(p, i)
  }

  /** Alone, a list call gets from (m, l) to (m', l'). */
  ghost predicate CallLeads(m: L.Mem, l: L.Local, m': L.Mem, l': L.Local) {
    exists p :: IsCallRun(p, m, l, m', l')
  }

  lemma CallStays(m: L.Mem, l: L.Local)
    ensures CallLeads(m, l, m, l)
  {
    assert IsCallRun([(m, l)], m, l, m, l);
  }

  lemma OneMore(m: L.Mem, l: L.Local, m1: L.Mem, l1: L.Local, m2: L.Mem, l2: L.Local)
    requires CallLeads(m, l, m1, l1) && CallSteps(m1, l1, m2, l2)
    ensures CallLeads(m, l, m2, l2)
  {
    var p :| IsCallRun(p, m, l, m1, l1);
    var r := p + [(m2, l2)];
    forall i: nat ensures CallLinked(r, i) { assert CallLinked(p, i); }
    assert IsCallRun(r, m, l, m2, l2);
  }

  predicate Sized(m: L.Mem) { |m.keys| == |m.next| == |m.status| > 1 }

  /** d is the last node of the list, and in front of key. */
  predicate LastBefore(m: L.Mem, d: L.Ptr, key: L.Key) {
    Sized(m) && 0 < d < |m.next| && m.next[d] == L.Link(L.NULL, false) && L.Less(m.keys[d], key)
  }

  /** p is the last node of the list, behind d, and holds key. */
  predicate SecondIs(m: L.Mem, d: L.Ptr, p: L.Ptr, key: L.Key) {
    && Sized(m) && 0 < d < |m.next| && 0 < p < |m.next| && p != d && m.next[d] == L.Link(p, false)
    && m.next[p] == L.Link(L.NULL, false) && m.keys[p] == key && L.Less(m.keys[d], key)
  }

  /** The list after key has been added behind d. */
  predicate Appended(m: L.Mem, m': L.Mem, d: L.Ptr, key: L.Key) {
    && Sized(m) && Sized(m') && |m'.keys| == |m.keys| + 1 && SecondIs(m', d, |m.keys|, key)
    && forall q :: 0 < q < |m.keys| ==> m'.keys[q] == m.keys[q] && (q != d ==> m'.next[q] == m.next[q])
  }

  lemma FirstReads(m: L.Mem, l: L.Local, d: L.Ptr)
    requires 0 < d < |m.next| && l.pc.ReadStart? && l.from.Copy? && l.copy == L.Link(d, false)
    ensures CallLeads(m, l, m, l.(pc := L.RecheckNext, prev := L.Copy, cur := d, next := L.Next(m, d)))
  {
    var l1 := l.(pc := L.RecheckStart, prev := L.Copy, cur := d);
    CallStays(m, l);
    OneMore(m, l, m, l, m, l1);
    OneMore(m, l, m, l1, m, l1.(pc := L.ReadNext));
    OneMore(m, l, m, l1.(pc := L.ReadNext), m, l1.(pc := L.RecheckNext, next := L.Next(m, d)));
  }

  /** What an add answers that was started at the last node. */
  predicate Added(m: L.Mem, d: L.Ptr, key: L.Key, m': L.Mem, l': L.Local) {
    Appended(m, m', d, key) && l'.pc.Answer? && l'.ans && l'.cur == |m.keys| && l'.copy == L.Link(d, false)
  }

  lemma AppendRuns(m: L.Mem, kind: L.Kind, key: L.Key, d: L.Ptr, t: nat) returns (m': L.Mem, l': L.Local)
    requires LastBefore(m, d, key) && (kind.Add? || kind.AddAddr?)
    ensures var (m0, l0) := L.Enter(m, kind, key, L.Copy, d, t); CallLeads(m0, l0, m', l') && Added(m, d, key, m', l')
  {
    var (m0, l0) := L.Enter(m, kind, key, L.Copy, d, t);
    FirstReads(m0, l0, d);
    var l3 := l0.(pc := L.RecheckNext, prev := L.Copy, cur := d, next := L.Link(L.NULL, false));
    var l4 := l3.(pc := L.RecheckPrev);
    OneMore(m0, l0, m0, l3, m0, l4);
    var l5 := l4.(prev := L.Field(d), cur := L.NULL, pc := L.WriteNext);
    OneMore(m0, l0, m0, l4, m0, l5);
    var m6, l6 := m0.(next := m0.next[l0.node := L.Link(L.NULL, false)]), l5.(pc := L.CasAdd);
    OneMore(m0, l0, m0, l5, m6, l6);
    m', l' := L.Step(m6, l6).0, L.Step(m6, l6).1;
    OneMore(m0, l0, m6, l6, m', l');
  }

  /** find, up to where it has found the second node. */
  lemma SecondReads(m: L.Mem, l: L.Local, d: L.Ptr, p: L.Ptr) returns (l': L.Local)
    requires SecondIs(m, d, p, l.key) && l.pc.ReadStart? && l.from.Copy? && l.copy == L.Link(d, false) && !l.took
    ensures CallLeads(m, l, m, l') && l'.pc.RecheckPrev? && l'.prev == L.Field(d) && l'.cur == p
    ensures l'.next == L.Link(L.NULL, false) && l'.kind == l.kind && l'.key == l.key && !l'.took && l'.copy == l.copy
  {
    FirstReads(m, l, d);
    var l3 := l.(pc := L.RecheckNext, prev := L.Copy, cur := d, next := L.Link(p, false));
    var l4 := l3.(pc := L.RecheckPrev);
    OneMore(m, l, m, l3, m, l4);
    var l5 := l4.(prev := L.Field(d), cur := p, pc := L.ReadNext);
    OneMore(m, l, m, l4, m, l5);
    var l6 := l5.(pc := L.RecheckNext, next := L.Link(L.NULL, false));
    OneMore(m, l, m, l5, m, l6);
    l' := L.Noted(l6, true).(pc := L.RecheckPrev);
    OneMore(m, l, m, l6, m, l');
  }

  lemma SearchRuns(m: L.Mem, key: L.Key, d: L.Ptr, p: L.Ptr, t: nat) returns (l': L.Local)
    requires SecondIs(m, d, p, key)
    ensures var (m0, l0) := L.Enter(m, L.Search, key, L.Copy, d, t); m0 == m && CallLeads(m, l0, m, l') && l'.pc.Answer? && l'.ans
  {
    var l0 := L.Enter(m, L.Search, key, L.Copy, d, t).1;
    var l7 := SecondReads(m, l0, d, p);
    l' := l7.(pc := L.Answer, ans := true);
    OneMore(m, l0, m, l7, m, l');
  }

  lemma RemoveRuns(m: L.Mem, key: L.Key, d: L.Ptr, p: L.Ptr, t: nat) returns (m': L.Mem, l': L.Local)
    requires SecondIs(m, d, p, key)
    ensures var (m0, l0) := L.Enter(m, L.Remove, key, L.Copy, d, t); m0 == m && CallLeads(m, l0, m', l')
    ensures l'.pc.Answer? && l'.ans && m'.keys == m.keys && Sized(m') && m'.next[d] == L.Link(L.NULL, false)
  {
    var l0 := L.Enter(m, L.Remove, key, L.Copy, d, t).1;
    var l7 := SecondReads(m, l0, d, p);
    var l8 := l7.(pc := L.MarkCur);
    OneMore(m, l0, m, l7, m, l8);
    var m9, l9 := m.(next := m.next[p := L.Link(L.NULL, true)]), l8.(pc := L.UnlinkMarked, ans := true, took := true);
    OneMore(m, l0, m, l8, m9, l9);
    m', l' := L.Step(m9, l9).0, L.Step(m9, l9).1;
    OneMore(m, l0, m9, l9, m', l');
  }

  // ---------------------------------------------------------------- a thread

  predicate Steps(hash: int -> int, t: nat, m: Mem, th: Local, m': Mem, th': Local) {
    th.Busy? && Step(hash, m, th, t).0 == m' && Step(hash, m, th, t).1 == th'
  }

  /** The i-th instruction of this run of thread t. */
  predicate Linked(hash: int -> int, t: nat, p: seq<(Mem, Local)>, i: nat) {
    i + 1 < |p| ==> Steps(hash, t, p[i].0, p[i].1, p[i + 1].0, p[i + 1].1)
  }

  ghost predicate IsRun(hash: int -> int, t: nat, p: seq<(Mem, Local)>, m: Mem, th: Local, m': Mem, th': Local) {
    p != [] && p[0] == (m, th) && p[|p| - 1] == (m', th') && forall i: nat {:trigger Linked(hash, t, p, i)} :: Linked(hash, t, p, i)
  }

  /** Alone, thread t gets from (m, th) to (m', th'). */
  ghost predicate Leads(hash: int -> int, t: nat, m: Mem, th: Local, m': Mem, th': Local) {
    exists p :: IsRun(hash, t, p, m, th, m', th')
  }

  lemma Stays(hash: int -> int, t: nat, m: Mem, th: Local)
    ensures Leads(hash, t, m, th, m, th)
  {
    assert IsRun(hash, t, [(m, th)], m, th, m, th);
  }

  lemma Then(hash: int -> int, t: nat, m: Mem, th: Local, m1: Mem, th1: Local, m2: Mem, th2: Local)
    requires Leads(hash, t, m, th, m1, th1) && Leads(hash, t, m1, th1, m2, th2)
    ensures Leads(hash, t, m, th, m2, th2)
  {
    var p :| IsRun(hash, t, p, m, th, m1, th1);
    var q :| IsRun(hash, t, q, m1, th1, m2, th2);
    var r := p[..|p| - 1] + q;
    forall i: nat ensures Linked(hash, t, r, i) {
      assert Linked(hash, t, p, i);
      if i >= |p| - 1 { assert Linked(hash, t, q, i - (|p| - 1)); }
    }
    assert IsRun(hash, t, r, m, th, m2, th2);
  }

  lemma OneStep(hash: int -> int, t: nat, m: Mem, th: Local, m': Mem, th': Local)
    requires Steps(hash, t, m, th, m', th')
    ensures Leads(hash, t, m, th, m', th')
  {
    var p := [(m, th), (m', th')];
    forall i: nat ensures Linked(hash, t, p, i) {}
    assert IsRun(hash, t, p, m, th, m', th');
  }

  lemma ThenStep(hash: int -> int, t: nat, m: Mem, th: Local, m1: Mem, th1: Local, m2: Mem, th2: Local)
    requires Leads(hash, t, m, th, m1, th1) && Steps(hash, t, m1, th1, m2, th2)
    ensures Leads(hash, t, m, th, m2, th2)
  {
    OneStep(hash, t, m1, th1, m2, th2);
    Then(hash, t, m, th, m1, th1, m2, th2);
  }

  predicate InCall(th: Local) { th.Busy? && (th.pc.RunList? || th.pc.RunDummy? || th.pc.RunCheck?) }

  lemma CallStep(hash: int -> int, t: nat, m: Mem, th: Local, l2: L.Mem, c2: L.Local)
    requires InCall(th) && CallSteps(m.list, th.call, l2, c2)
    ensures Steps(hash, t, m, th, m.(list := l2), th.(call := c2))
  {
  }

  /** A list call runs as an instruction of its thread, until it answers. */
  lemma CallRuns(hash: int -> int, t: nat, m: Mem, th: Local, l': L.Mem, c': L.Local)
    requires InCall(th) && CallLeads(m.list, th.call, l', c')
    ensures Leads(hash, t, m, th, m.(list := l'), th.(call := c'))
  {
    var p :| IsCallRun(p, m.list, th.call, l', c');
    RunsAlong(hash, t, m, th, p, |p| - 1);
  }

  lemma {:induction false} RunsAlong(hash: int -> int, t: nat, m: Mem, th: Local, p: seq<(L.Mem, L.Local)>, n: nat)
    requires InCall(th) && n < |p| && p[0] == (m.list, th.call) && forall i: nat {:trigger CallLinked(p, i)} :: CallLinked(p, i)
    ensures Leads(hash, t, m, th, m.(list := p[n].0), th.(call := p[n].1))
  {
    if n == 0 {
      Stays(hash, t, m, th);
      assert m.(list := m.list) == m && th.(call := th.call) == th;
    } else {
      RunsAlong(hash, t, m, th, p, n - 1);
      assert CallLinked(p, n - 1);
      var m1, th1 := m.(list := p[n - 1].0), th.(call := p[n - 1].1);
      CallStep(hash, t, m1, th1, p[n].0, p[n].1);
      ThenStep(hash, t, m, th, m1, th1, m.(list := p[n].0), th.(call := p[n].1));
    }
  }

  /** Memory when the segment of cell c has been allocated. */
  function Allocated(m: Mem, c: nat): Mem { m.(segments := m.segments + {Segment(m, c)}) }

  /** get_bucket reads the cell that is left of its argument modulo the size. */
  lemma GetBucket(hash: int -> int, t: nat, m: Mem, th: Local, c: nat)
    requires th.Busy? && th.pc.GetSize? && m.size > 0 && c == th.target % m.size
    ensures var (m', th') := Deliver(hash, Allocated(m, c), th.(pc := GetCell, target := c), Cell(m, c), t); Leads(hash, t, m, th, m', th')
  {
    var at := th.(pc := GetSegment, target := c);
    OneStep(hash, t, m, th, m, at);
    var m1 := Allocated(m, c);
    if Segment(m, c) in m.segments {
      assert m1 == m;
      ThenStep(hash, t, m, th, m, at, m, at.(pc := GetCell));
    } else {
      ThenStep(hash, t, m, th, m, at, m, at.(pc := TestSegment));
      ThenStep(hash, t, m, th, m, at.(pc := TestSegment), m, at.(pc := NewSegment));
      ThenStep(hash, t, m, th, m, at.(pc := NewSegment), m1, at.(pc := GetCell));
    }
    var (m', th') := Deliver(hash, m1, th.(pc := GetCell, target := c), Cell(m, c), t);
    ThenStep(hash, t, m, th, m1, th.(pc := GetCell, target := c), m', th');
  }

  // ---------------------------------------------------------------- schedules

  function Turns(t: nat, n: nat): seq<Action> { seq(n, _ => Continue(t)) }

  /** In s', thread t is at th, the other threads are where they are in s. */
  predicate Moved(s: State, s': State, t: nat, m: Mem, th: Local) {
    t < |s.threads| && s'.mem == m && s'.threads == s.threads[t := th]
  }

  lemma {:induction false} TurnsRun(hash: int -> int, t: nat, s: State, p: seq<(Mem, Local)>, n: nat)
    requires n < |p| && t < |s.threads| && p[0] == (s.mem, s.threads[t]) && forall i: nat {:trigger Linked(hash, t, p, i)} :: Linked(hash, t, p, i)
    ensures Moved(s, Exec(hash, s, Turns(t, n)), t, p[n].0, p[n].1)
  {
    if n > 0 {
      assert Turns(t, n)[..|Turns(t, n)| - 1] == Turns(t, n - 1);
      TurnsRun(hash, t, s, p, n - 1);
      assert Linked(hash, t, p, n - 1);
    }
  }

  lemma {:induction false} ExecAppends(hash: int -> int, s: State, a: seq<Action>, b: seq<Action>)
    ensures Exec(hash, s, a + b) == Exec(hash, Exec(hash, s, a), b)
  {
    if b == [] {
      assert a + b == a;
    } else {
      assert (a + b)[..|a + b| - 1] == a + b[..|b| - 1];
      ExecAppends(hash, s, a, b[..|b| - 1]);
    }
  }

  /** Thread t runs on. */
  lemma RunOn(hash: int -> int, t: nat, s: State, m: Mem, th: Local) returns (sched: seq<Action>)
    requires t < |s.threads| && Leads(hash, t, s.mem, s.threads[t], m, th)
    ensures Moved(s, Exec(hash, s, sched), t, m, th)
  {
    var p :| IsRun(hash, t, p, s.mem, s.threads[t], m, th);
    TurnsRun(hash, t, s, p, |p| - 1);
    sched := Turns(t, |p| - 1);
  }

  function Called(op: Op): (th: Local)
    ensures th.Busy?
  {
    Busy(op, ReadSize, 0, TestBucket, 0, NoCall, [], L.NULL, 0, 0)
  }

  /** An idle thread makes a call and runs. */
  lemma CallRun(hash: int -> int, t: nat, s: State, op: Op, m: Mem, th: Local) returns (sched: seq<Action>)
    requires t < |s.threads| && s.threads[t].Idle? && IsOp(op) && Leads(hash, t, s.mem, Called(op), m, th)
    ensures Moved(s, Exec(hash, s, sched), t, m, th)
  {
    var first := [Invoke(t, op)];
    assert first[..0] == [];
    var s1 := Apply(hash, s, Invoke(t, op));
    assert Exec(hash, s, first) == s1;
    var more := RunOn(hash, t, s1, m, th);
    ExecAppends(hash, s, first, more);
    sched := first + more;
    assert s1.threads[t := th] == s.threads[t := th];
  }
}
