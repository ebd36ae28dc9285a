/**
 What hazard pointers guarantee in every run, and that the stack built on them is a stack.
 */
module SmrResults {
  import opened Linearizability
  import opened StackSpecs
  import opened Sequences
  import opened Smr
  import opened SmrProof

  /** With nodes recycled, the calls behave as if each took effect at once on a LIFO sequence. */
  lemma StackIsLinearizable(n: nat, sched: seq<Action>)
    ensures Linearizable(StackSpec, [], Exec(Init(n), sched).trace)
  {
    RunKeeps(n, sched);
    EffectsLinearize(StackSpec, [], Exec(Init(n), sched).trace);
  }

  /** No thread looks at, or takes its successor from, a node that may have been reused. */
  ghost predicate Protected(s: State) {
    forall t :: 0 <= t < |s.threads| ==> ThreadProtected(s.mem, s.threads[t])
  }

  predicate ThreadProtected(m: Mem, th: Local) {
    && (th.pc.PopNext? || th.pc.CasPop? || th.pc.PeekData? ==>
          0 < th.oldTop < |m.own| && R(m, th.rec).hp == th.oldTop && Live(m.own[th.oldTop]))
    && (th.pc.CasPop? && m.top == th.oldTop ==> m.stack != [] && m.top == m.stack[0] && th.newTop == Below(m.stack, 0))
  }

  lemma ProtectedThread(m: Mem, th: Local, t: nat)
    requires StackInv(m) && RecsInv(m) && ThreadInv(m, th, t)
    ensures ThreadProtected(m, th)
  {
    if th.pc.PopNext? || th.pc.CasPop? || th.pc.PeekData? {
      assert RecOk(m, th.rec);
      if m.top == th.oldTop {
        TopOnStack(m);
        assert m.next[m.stack[0]] == Below(m.stack, 0);
      }
    }
  }

  /** A thread that looks at a node, or takes its successor from it, holds a node that has not been released; and a pop
      whose compare-and-swap succeeds installs the true successor of top, although nodes come back at the same addresses. */
  lemma GuardedNodesAreSafe(n: nat, sched: seq<Action>)
    ensures Protected(Exec(Init(n), sched))
  {
    RunKeeps(n, sched);
    InvProtects(Exec(Init(n), sched));
  }

  lemma InvProtects(s: State)
    requires Inv(s)
    ensures Protected(s)
  {
    forall t | 0 <= t < |s.threads| ensures ThreadProtected(s.mem, s.threads[t]) {
      ProtectedThread(s.mem, s.threads[t], t);
    }
  }

  /** A scan never writes past the end of plist: the record list from any head is no longer than the
      count that head carries, whatever is pushed meanwhile. */
  ghost predicate Roomy(s: State) {
    && (forall i {:trigger s.mem.recs[s.mem.order[i]]} :: 0 <= i < |s.mem.order| ==>
          s.mem.order[i] < |s.mem.recs| && s.mem.recs[s.mem.order[i]].nrThreads >= i + 1)
    && (forall t :: 0 <= t < |s.threads| ==>
          var th := s.threads[t];
          (th.pc.ScanSlot? && th.cur != NULL ==> |th.plist| < th.max) && (th.pc.ScanFree? ==> |th.plist| <= th.max))
  }

  lemma ScanHasRoom(n: nat, sched: seq<Action>)
    ensures Roomy(Exec(Init(n), sched))
  {
    RunKeeps(n, sched);
    InvRoomy(Exec(Init(n), sched));
  }

  lemma InvRoomy(s: State)
    requires Inv(s)
    ensures Roomy(s)
  {
    forall t | 0 <= t < |s.threads|
      ensures var th := s.threads[t];
        (th.pc.ScanSlot? && th.cur != NULL ==> |th.plist| < th.max) && (th.pc.ScanFree? ==> |th.plist| <= th.max)
    {
      assert ThreadInv(s.mem, s.threads[t], t);
    }
  }

  /** Every node that has been handed out is in exactly one place: a node on the stack, in a free list or in
      a retired list is there once and belongs there alone. */
  ghost predicate Placed(m: Mem) {
    && Distinct(m.stack) && (forall i :: 0 <= i < |m.stack| ==> Own(m, m.stack[i]).OnStack?)
    && forall r :: 0 <= r < |m.recs| ==> RecPlaced(m, r)
  }

  ghost predicate RecPlaced(m: Mem, r: RecPtr) {
    var c := R(m, r);
    && Distinct(c.free) && (forall x :: x in c.free ==> Own(m, x) == Free(r)) && |c.free| <= MAX_FREE_NODES
    && Distinct(c.rlist + c.kept) && (forall x :: x in c.rlist + c.kept ==> Own(m, x) == Retired(r))
  }

  lemma NodesStayInPlace(n: nat, sched: seq<Action>)
    ensures Placed(Exec(Init(n), sched).mem)
  {
    RunKeeps(n, sched);
    InvPlaced(Exec(Init(n), sched).mem);
  }

  lemma InvPlaced(m: Mem)
    requires MemInv(m)
    ensures Placed(m)
  {
    forall r | 0 <= r < |m.recs| ensures RecPlaced(m, r) {
      assert RecOk(m, r);
    }
  }

  // ---------------------------------------------------------------- guards

  /** A record whose owner has found its published pointer at top again guards a node that has not been released. */
  ghost predicate GuardsHold(m: Mem) {
    forall r :: 0 <= r < |m.recs| && m.recs[r].guard != NULL ==>
      m.recs[r].hp == m.recs[r].guard < |m.own| && Live(m.own[m.recs[r].guard])
  }

  lemma GuardedNodesStayLive(n: nat, sched: seq<Action>)
    ensures GuardsHold(Exec(Init(n), sched).mem)
  {
    RunKeeps(n, sched);
    InvGuards(Exec(Init(n), sched).mem);
  }

  lemma InvGuards(m: Mem)
    requires RecsInv(m)
    ensures GuardsHold(m)
  {
    forall r | 0 <= r < |m.recs| && m.recs[r].guard != NULL
      ensures m.recs[r].hp == m.recs[r].guard < |m.own| && Live(m.own[m.recs[r].guard])
    {
      assert RecOk(m, r);
    }
  }

  /** The action writes the hazard slot of record r. */
  predicate WritesSlot(s: State, act: Action, r: RecPtr) {
    act.Continue? && act.t < |s.threads| && s.threads[act.t].rec == r &&
    var pc := s.threads[act.t].pc;
    pc.PopGuard? || pc.PopClear? || pc.PeekGuard? || pc.PeekClear? || pc.ExitClear?
  }

  lemma ApplyKeepsGuard(s: State, act: Action, r: RecPtr)
    requires Inv(s) && r < |s.mem.recs| && s.mem.recs[r].guard != NULL && !WritesSlot(s, act, r)
    ensures var m := Apply(s, act).mem; r < |m.recs| && m.recs[r].guard == s.mem.recs[r].guard
  {
    if act.t < |s.threads| && act.Continue? {
      var th := s.threads[act.t];
      assert RecOk(s.mem, r) && ThreadInv(s.mem, th, act.t);
      if th.rec == r { OwnStepKeepsGuard(s.mem, th, act.t, act.addr); } else { OtherStepKeepsGuard(s.mem, th, act.t, act.addr, r); }
    }
  }

  lemma OwnStepKeepsGuard(m: Mem, th: Local, t: nat, addr: Ptr)
    requires Sized(m) && ThreadInv(m, th, t) && th.rec < |m.recs| && m.recs[NULL] == NoRec
    requires m.recs[th.rec].guard != NULL && m.recs[th.rec].hp == m.recs[th.rec].guard
    requires !th.pc.PopGuard? && !th.pc.PopClear? && !th.pc.PeekGuard? && !th.pc.PeekClear? && !th.pc.ExitClear?
    ensures var m' := Step(m, th, t, addr).0; th.rec < |m'.recs| && m'.recs[th.rec].guard == m.recs[th.rec].guard
  {
  }

  lemma OtherStepKeepsGuard(m: Mem, th: Local, t: nat, addr: Ptr, r: RecPtr)
    requires MemInv(m) && ThreadInv(m, th, t) && (Counted(th) ==> m.hpCount > |m.order|) && r < |m.recs| && r != th.rec
    ensures var m' := Step(m, th, t, addr).0; r < |m'.recs| && m'.recs[r].guard == m.recs[r].guard
  {
    StepKeeps(m, th, t, addr);
    if th.pc.ClaimRec? { ClaimKeepsGuard(m, th, t, addr, r); } else { StepTakesNoOld(m, th, t, addr); }
  }

  lemma ClaimKeepsGuard(m: Mem, th: Local, t: nat, addr: Ptr, r: RecPtr)
    requires Sized(m) && th.pc.ClaimRec? && r < |m.recs|
    ensures var m' := Step(m, th, t, addr).0; r < |m'.recs| && m'.recs[r].guard == m.recs[r].guard
  {
  }

  lemma StepTakesNoOld(m: Mem, th: Local, t: nat, addr: Ptr)
    requires Sized(m) && !th.pc.ClaimRec?
    ensures var th' := Step(m, th, t, addr).1; th'.rec == th.rec || th'.rec == NULL || th'.rec == |m.recs|
  {
  }

  /** In a run that goes on with more from s, nobody writes the slot of record r. */
  ghost predicate SlotUntouched(s: State, more: seq<Action>, r: RecPtr) {
    forall i :: 0 <= i < |more| ==> !WritesSlot(Exec(s, more[..i]), more[i], r)
  }

  lemma {:induction false} ExecAppends(s: State, a: seq<Action>, b: seq<Action>)
    ensures Exec(s, a + b) == Exec(Exec(s, a), b)
  {
    if b == [] {
      assert a + b == a;
    } else {
      assert (a + b)[..|a + b| - 1] == a + b[..|b| - 1];
      ExecAppends(s, a, b[..|b| - 1]);
    }
  }

  predicate Guards(m: Mem, r: RecPtr, p: Ptr) { r < |m.recs| && m.recs[r].guard == p != NULL }

  lemma {:induction false} GuardStays(s: State, more: seq<Action>, r: RecPtr, p: Ptr)
    requires Inv(s) && Guards(s.mem, r, p) && SlotUntouched(s, more, r)
    ensures Inv(Exec(s, more)) && Guards(Exec(s, more).mem, r, p)
  {
    if more != [] {
      var before := more[..|more| - 1];
      assert forall i :: 0 <= i < |before| ==> before[..i] == more[..i];
      GuardStays(s, before, r, p);
      ApplyKeepsGuard(Exec(s, before), more[|more| - 1], r);
      ApplyKeeps(Exec(s, before), more[|more| - 1]);
    }
  }

  /** Once its owner has found it at top again, a published node is neither freed nor recycled, through any run, until
      the slot is written. */
  lemma GuardedUntilSlotWritten(n: nat, sched: seq<Action>, more: seq<Action>, r: RecPtr, p: Ptr)
    requires Guards(Exec(Init(n), sched).mem, r, p) && SlotUntouched(Exec(Init(n), sched), more, r)
    ensures var m := Exec(Init(n), sched + more).mem; Guards(m, r, p) && p < |m.own| && Live(m.own[p])
  {
    RunKeeps(n, sched);
    GuardStays(Exec(Init(n), sched), more, r, p);
    ExecAppends(Init(n), sched, more);
    InvGuards(Exec(Init(n), sched + more).mem);
  }

  /** What a scan is about to release is guarded by no record. */
  lemma ScanReleasesUnguarded(n: nat, sched: seq<Action>, t: nat)
    requires var s := Exec(Init(n), sched);
      && t < |s.threads| && s.threads[t].pc.ScanFree?
      && R(s.mem, s.threads[t].rec).rlist != [] && R(s.mem, s.threads[t].rec).rlist[0] !in s.threads[t].plist
    ensures var s := Exec(Init(n), sched); var x := R(s.mem, s.threads[t].rec).rlist[0];
      forall q :: 0 <= q < |s.mem.recs| ==> s.mem.recs[q].guard != x
  {
    RunKeeps(n, sched);
    ThreadReleasesUnguarded(Exec(Init(n), sched).mem, Exec(Init(n), sched).threads[t], t);
  }

  lemma ThreadReleasesUnguarded(m: Mem, th: Local, t: nat)
    requires MemInv(m) && ThreadInv(m, th, t) && th.pc.ScanFree?
    requires R(m, th.rec).rlist != [] && R(m, th.rec).rlist[0] !in th.plist
    ensures forall q :: 0 <= q < |m.recs| ==> m.recs[q].guard != R(m, th.rec).rlist[0]
  {
    var c := R(m, th.rec);
    assert RecOk(m, th.rec);
    assert c.rlist[0] == (c.rlist + c.kept)[0];
    ReleasedIsUnguarded(m, th, c.rlist[0]);
  }

  /** A scan keeps at most one node for each distinct hazard pointer that it has read. */
  ghost predicate KeptBounded(s: State) {
    forall t :: 0 <= t < |s.threads| && s.threads[t].pc.ScanFree? ==>
      var th := s.threads[t];
      th.nr == |R(s.mem, th.rec).kept| <= |Elements(th.plist)|
  }

  lemma ScanKeepsFew(n: nat, sched: seq<Action>)
    ensures KeptBounded(Exec(Init(n), sched))
  {
    RunKeeps(n, sched);
    var s := Exec(Init(n), sched);
    forall t | 0 <= t < |s.threads| && s.threads[t].pc.ScanFree?
      ensures s.threads[t].nr == |R(s.mem, s.threads[t].rec).kept| <= |Elements(s.threads[t].plist)|
    {
      ThreadKeepsFew(s.mem, s.threads[t], t);
    }
  }

  lemma ThreadKeepsFew(m: Mem, th: Local, t: nat)
    requires RecsInv(m) && ThreadInv(m, th, t) && th.pc.ScanFree?
    ensures th.nr == |R(m, th.rec).kept| <= |Elements(th.plist)|
  {
    assert RecOk(m, th.rec);
    KeptAreDistinct(R(m, th.rec));
    DistinctFits(R(m, th.rec).kept, Elements(th.plist));
  }

  lemma KeptAreDistinct(c: Rec)
    requires Distinct(c.rlist + c.kept)
    ensures Distinct(c.kept)
  {
    var n, both := |c.rlist|, c.rlist + c.kept;
    assert forall i :: 0 <= i < |c.kept| ==> both[n + i] == c.kept[i];
  }

  /** So when a scan is over, rcount is the length of the retired list, and that is within this bound. */
  lemma ScanEndsBounded(n: nat, sched: seq<Action>, t: nat, addr: Ptr)
    requires var s := Exec(Init(n), sched);
      t < |s.threads| && s.threads[t].pc.ScanFree? && R(s.mem, s.threads[t].rec).rlist == []
    ensures var s, s' := Exec(Init(n), sched), Exec(Init(n), sched + [Continue(t, addr)]);
      var c := R(s'.mem, s.threads[t].rec);
      c.rcount == |c.rlist| <= |Elements(s.threads[t].plist)|
  {
    ScanKeepsFew(n, sched);
    RunKeeps(n, sched);
    var s := Exec(Init(n), sched);
    assert (sched + [Continue(t, addr)])[..|sched|] == sched;
    assert ThreadInv(s.mem, s.threads[t], t);
  }
}
