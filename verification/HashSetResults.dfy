/**
 Whole runs of the hash set.
 */
module HashSetResults {
  import opened Linearizability
  import opened HashSet
  import opened HashSetProof
  import opened BucketChoice
  import L = ListCore
  import P = ListProof
  import S = SplitOrder

  ghost predicate ThreadsInv(hash: int -> int, m: Mem, threads: seq<Local>) {
    forall t :: 0 <= t < |threads| && threads[t].Busy? ==> ThreadInv(hash, m, threads[t], t)
  }

  /** By how much the count lags behind the set. */
  function OwedBy(threads: seq<Local>): int {
    if threads == [] then 0 else OwedBy(threads[..|threads| - 1]) + Owed(threads[|threads| - 1])
  }

  lemma {:induction false} OwedUpdate(threads: seq<Local>, t: nat, th: Local)
    requires t < |threads|
    ensures OwedBy(threads[t := th]) == OwedBy(threads) - Owed(threads[t]) + Owed(th)
  {
    var n := |threads| - 1;
    if t == n {
      assert threads[t := th][..n] == threads[..n];
    } else {
      assert threads[t := th][..n] == threads[..n][t := th];
      OwedUpdate(threads[..n], t, th);
    }
  }

  lemma {:induction false} NobodyOwes(threads: seq<Local>)
    requires forall t :: 0 <= t < |threads| ==> threads[t].Idle?
    ensures OwedBy(threads) == 0
  {
    if threads != [] { NobodyOwes(threads[..|threads| - 1]); }
  }

  ghost predicate PhasesAgree(threads: seq<Local>, trace: seq<Event<Op, bool>>) {
    forall t: nat :: PhaseOf(trace, t) == if t < |threads| then PhaseNow(threads[t]) else Quiet
  }

  ghost predicate History(m: Mem, trace: seq<Event<Op, bool>>) {
    Legal(SetSpec, {}, trace) && ValueAfter(SetSpec, {}, trace) == Elements(m.list)
  }

  ghost predicate Inv(hash: int -> int, s: State) {
    && MemInv(hash, s.mem) && ThreadsInv(hash, s.mem, s.threads)
    && s.mem.count + OwedBy(s.threads) == |Elements(s.mem.list)|
    && PhasesAgree(s.threads, s.trace) && History(s.mem, s.trace)
  }

  lemma ThreadsKept(hash: int -> int, m: Mem, m': Mem, threads: seq<Local>, t: nat, th': Local)
    requires ThreadsInv(hash, m, threads) && t < |threads| && KeysInv(hash, m'.list) && Rely(m, m', t)
    requires th'.Busy? ==> ThreadInv(hash, m', th', t)
    ensures ThreadsInv(hash, m', threads[t := th'])
  {
    var threads' := threads[t := th'];
    forall u | 0 <= u < |threads'| && threads'[u].Busy? ensures ThreadInv(hash, m', threads'[u], u) {
      if u != t { ThreadStable(hash, m, m', t, threads[u], u); }
    }
  }

  lemma TraceKept(m: Mem, threads: seq<Local>, trace: seq<Event<Op, bool>>, t: nat, m': Mem, th': Local, es: seq<Event<Op, bool>>)
    requires PhasesAgree(threads, trace) && History(m, trace) && t < |threads| && Explains(m, threads[t], t, es, m', th')
    ensures PhasesAgree(threads[t := th'], trace + es) && History(m', trace + es)
  {
    if es == [] { assert trace + es == trace; }
    else {
      assert es == [es[0]];
      OneEvent(Elements(m.list), m.count, threads, trace, t, es[0], Elements(m'.list), m'.count, th');
    }
  }

  lemma OneEvent(s: set<int>, c: int, threads: seq<Local>, trace: seq<Event<Op, bool>>, t: nat, e: Event<Op, bool>,
                 s': set<int>, c': int, th': Local)
    requires PhasesAgree(threads, trace) && t < |threads| && Explained(s, c, threads[t], t, [e], s', c', th')
    requires Legal(SetSpec, {}, trace) && ValueAfter(SetSpec, {}, trace) == s
    ensures PhasesAgree(threads[t := th'], trace + [e])
    ensures Legal(SetSpec, {}, trace + [e]) && ValueAfter(SetSpec, {}, trace + [e]) == s'
  {
    AppendEvent(SetSpec, {}, trace, e);
  }

  lemma ContinueKeeps(hash: int -> int, s: State, t: nat)
    requires HashOk(hash, s.mem.limitBits) && Inv(hash, s) && t < |s.threads| && s.threads[t].Busy?
    ensures Inv(hash, Apply(hash, s, Continue(t))) && Apply(hash, s, Continue(t)).mem.limitBits == s.mem.limitBits
  {
    var (m', th', es) := Step(hash, s.mem, s.threads[t], t);
    StepRefinesSet(hash, s.mem, s.threads[t], t);
    Moved(hash, s, t, m', th', es);
    ApplyIs(hash, s, t, m', th', es);
  }

  lemma ApplyIs(hash: int -> int, s: State, t: nat, m': Mem, th': Local, es: seq<Event<Op, bool>>)
    requires t < |s.threads| && s.threads[t].Busy? && Step(hash, s.mem, s.threads[t], t) == (m', th', es)
    ensures Apply(hash, s, Continue(t)) == State(m', s.threads[t := th'], s.trace + es)
  {
  }

  lemma Moved(hash: int -> int, s: State, t: nat, m': Mem, th': Local, es: seq<Event<Op, bool>>)
    requires Inv(hash, s) && t < |s.threads| && MemInv(hash, m') && Rely(s.mem, m', t)
    requires (th'.Busy? ==> ThreadInv(hash, m', th', t)) && Explains(s.mem, s.threads[t], t, es, m', th')
    ensures Inv(hash, State(m', s.threads[t := th'], s.trace + es))
  {
    ThreadsKept(hash, s.mem, m', s.threads, t, th');
    TraceKept(s.mem, s.threads, s.trace, t, m', th', es);
    OwedUpdate(s.threads, t, th');
  }

  lemma InvokeKeeps(hash: int -> int, s: State, t: nat, op: Op)
    requires Inv(hash, s) && t < |s.threads| && s.threads[t].Idle? && IsOp(op)
    ensures Inv(hash, Apply(hash, s, Invoke(t, op)))
  {
    var th' := Busy(op, ReadSize, 0, TestBucket, 0, NoCall, [], L.NULL, 0, 0);
    NothingKeeps(hash, s.mem, t);
    ThreadsKept(hash, s.mem, s.mem, s.threads, t, th');
    TraceKept(s.mem, s.threads, s.trace, t, s.mem, th', [Call(t, op)]);
    OwedUpdate(s.threads, t, th');
  }

  lemma ApplyKeeps(hash: int -> int, s: State, act: Action)
    requires HashOk(hash, s.mem.limitBits) && Inv(hash, s)
    ensures Inv(hash, Apply(hash, s, act)) && Apply(hash, s, act).mem.limitBits == s.mem.limitBits
  {
    if act.t < |s.threads| {
      if act.Invoke? && s.threads[act.t].Idle? && IsOp(act.op) { InvokeKeeps(hash, s, act.t, act.op); }
      if act.Continue? && s.threads[act.t].Busy? { ContinueKeeps(hash, s, act.t); }
    }
  }

  /** The list of a new set: the dummy of bucket 0. */
  lemma FirstList(hash: int -> int, n: nat, k: nat, load: real)
    ensures var list := Init(n, k, load).mem.list;
      P.MemInv(list) && KeysInv(hash, list) && P.KeySet(list) == {BucketKey(0)} && IsBucket(list, 0, 1)
  {
    var list := Init(n, k, load).mem.list;
    S.DummiesAreEven(0, 0);
    assert P.LeadsOn(list, 1);
  }

  lemma FirstTable(n: nat, k: nat, load: real)
    requires k <= 22 && IsBucket(Init(n, k, load).mem.list, 0, 1)
    ensures TableInv(Init(n, k, load).mem)
  {
    S.Pow2Adds(9, k);
    assert S.Pow2(9) == ARRAY_SIZE;
    MaxSizeIs(k);
  }

  lemma InitKeeps(hash: int -> int, n: nat, k: nat, load: real)
    requires k <= 22
    ensures Inv(hash, Init(n, k, load))
  {
    var s := Init(n, k, load);
    FirstList(hash, n, k, load);
    FirstTable(n, k, load);
    S.DummiesAreEven(0, 0);
    assert Elements(s.mem.list) == {};
    NobodyOwes(s.threads);
  }

  lemma {:induction false} RunKeeps(hash: int -> int, n: nat, k: nat, load: real, sched: seq<Action>)
    requires HashOk(hash, k + 9) && k <= 22
    ensures var s := Exec(hash, Init(n, k, load), sched); Inv(hash, s) && s.mem.limitBits == k + 9
  {
    if sched == [] {
      InitKeeps(hash, n, k, load);
    } else {
      RunKeeps(hash, n, k, load, sched[..|sched| - 1]);
      ApplyKeeps(hash, Exec(hash, Init(n, k, load), sched[..|sched| - 1]), sched[|sched| - 1]);
    }
  }

  // ---------------------------------------------------------------- main results

  /** In every interleaving, across lazy initialisation of buckets and any number of doublings, the calls
      behave as if each took effect at once on a set of elements. */
  lemma SetIsLinearizable(hash: int -> int, n: nat, k: nat, load: real, sched: seq<Action>)
    requires HashOk(hash, k + 9) && k <= 22
    ensures Linearizable(SetSpec, {}, Exec(hash, Init(n, k, load), sched).trace)
  {
    RunKeeps(hash, n, k, load, sched);
    InvLinearizes(hash, Exec(hash, Init(n, k, load), sched));
  }

  lemma InvLinearizes(hash: int -> int, s: State)
    requires Inv(hash, s)
    ensures Linearizable(SetSpec, {}, s.trace)
  {
    TraceLinearizes(s.threads, s.trace);
  }

  lemma TraceLinearizes(threads: seq<Local>, trace: seq<Event<Op, bool>>)
    requires PhasesAgree(threads, trace) && Legal(SetSpec, {}, trace)
    ensures Linearizable(SetSpec, {}, trace)
  {
    EffectsLinearize(SetSpec, {}, trace);
  }

  /** The count that size() and empty() read is exact whenever no call is under way. */
  ghost predicate CountExact(s: State) {
    (forall t :: 0 <= t < |s.threads| ==> s.threads[t].Idle?) ==> s.mem.count == |ValueAfter(SetSpec, {}, s.trace)|
  }

  lemma QuietCountIsExact(hash: int -> int, n: nat, k: nat, load: real, sched: seq<Action>)
    requires HashOk(hash, k + 9) && k <= 22
    ensures CountExact(Exec(hash, Init(n, k, load), sched))
  {
    RunKeeps(hash, n, k, load, sched);
    InvCounts(hash, Exec(hash, Init(n, k, load), sched));
  }

  lemma InvCounts(hash: int -> int, s: State)
    requires Inv(hash, s)
    ensures CountExact(s)
  {
    if forall t :: 0 <= t < |s.threads| ==> s.threads[t].Idle? { NobodyOwes(s.threads); }
  }

  /** Every filled cell points to the one dummy of its bucket, which is in the list and not deleted. */
  ghost predicate CellsHoldDummies(m: Mem) {
    forall b :: b in m.cells ==>
      var p := m.cells[b];
      && b < m.size && p in m.list.chain && !L.Next(m.list, p).marked && L.KeyOf(m.list, p) == BucketKey(b)
      && forall q :: q in m.list.chain && L.KeyOf(m.list, q) == BucketKey(b) ==> q == p
  }

  /** No source assertion fails, and no compare-and-swap of a list call is aimed at a thread's own copy of a cell. */
  predicate CallSafe(th: Local) {
    th.Busy? ==>
      && !th.pc.Crash?
      && (Running(th.pc) ==>
            && !th.call.pc.Crash?
            && (th.call.pc.Unlink? || th.call.pc.CasAdd? || th.call.pc.UnlinkMarked? ==> !th.call.prev.Copy?))
  }

  /** get_bucket and set_bucket stay inside the array of segments. */
  predicate InBounds(m: Mem, th: Local) {
    th.Busy? && (Asking(th.pc) || Setting(th.pc)) ==>
      Segment(m, if Asking(th.pc) then th.target else Top(th.stack)) < ARRAY_SIZE
  }

  ghost predicate Safe(s: State) {
    CellsHoldDummies(s.mem) && forall t :: 0 <= t < |s.threads| ==> CallSafe(s.threads[t]) && InBounds(s.mem, s.threads[t])
  }

  lemma SetIsSafe(hash: int -> int, n: nat, k: nat, load: real, sched: seq<Action>)
    requires HashOk(hash, k + 9) && k <= 22
    ensures Safe(Exec(hash, Init(n, k, load), sched))
  {
    RunKeeps(hash, n, k, load, sched);
    InvSafe(hash, Exec(hash, Init(n, k, load), sched));
  }

  lemma InvSafe(hash: int -> int, s: State)
    requires Inv(hash, s)
    ensures Safe(s)
  {
    DummiesHeld(hash, s.mem);
    forall t | 0 <= t < |s.threads| ensures CallSafe(s.threads[t]) && InBounds(s.mem, s.threads[t]) {
      if s.threads[t].Busy? {
        ThreadSafe(hash, s.mem, s.threads[t], t);
        ThreadInBounds(hash, s.mem, s.threads[t], t);
      }
    }
  }

  lemma DummiesHeld(hash: int -> int, m: Mem)
    requires MemInv(hash, m)
    ensures CellsHoldDummies(m)
  {
    SizeBelow(m);
    forall b | b in m.cells
      ensures var p := m.cells[b];
        && b < m.size && p in m.list.chain && !L.Next(m.list, p).marked && L.KeyOf(m.list, p) == BucketKey(b)
        && forall q :: q in m.list.chain && L.KeyOf(m.list, q) == BucketKey(b) ==> q == p
    {
      OneDummy(hash, m.list, b, m.cells[b], m.cells[b]);
      forall q | q in m.list.chain && L.KeyOf(m.list, q) == BucketKey(b) ensures q == m.cells[b] {
        P.SameKey(m.list, q, m.cells[b]);
      }
    }
  }

  lemma ThreadSafe(hash: int -> int, m: Mem, th: Local, t: nat)
    requires th.Busy? && ThreadInv(hash, m, th, t)
    ensures CallSafe(th)
  {
    if Running(th.pc) { CallFacts(hash, m, th, t); }
  }

  lemma ThreadInBounds(hash: int -> int, m: Mem, th: Local, t: nat)
    requires TableInv(m) && th.Busy? && ThreadInv(hash, m, th, t)
    ensures InBounds(m, th)
  {
    S.Pow2Grows(m.bits, m.limitBits);
    if Asking(th.pc) { SegmentInBounds(m.segmentSize, th.target); }
    if Setting(th.pc) { StackInBounds(hash, m, th, t); }
  }

  // ---------------------------------------------------------------- the largest segments

  /** The bound on the size is negative, and no thread is about to double the table. */
  ghost predicate NeverGrows(s: State) {
    s.mem.size == 2 && MaxSize(s.mem.segmentSize) < 0 && forall t :: 0 <= t < |s.threads| ==> !Growing(s.threads[t])
  }

  predicate Growing(th: Local) { th.Busy? && th.pc.Grow? }

  lemma StepNeverGrows(hash: int -> int, m: Mem, th: Local, t: nat)
    requires th.Busy? && !th.pc.Grow? && MaxSize(m.segmentSize) < 0
    ensures var (m', th', _) := Step(hash, m, th, t);
      m'.size == m.size && m'.segmentSize == m.segmentSize && !Growing(th')
  {
  }

  lemma ApplyNeverGrows(hash: int -> int, s: State, act: Action)
    requires NeverGrows(s)
    ensures NeverGrows(Apply(hash, s, act))
  {
    if act.t < |s.threads| && act.Continue? && s.threads[act.t].Busy? { StepNeverGrows(hash, s.mem, s.threads[act.t], act.t); }
  }

  /** With segments of 2^22 cells, the product of ints that bounds the size is negative: whatever the hashes, the table
      keeps its two buckets. */
  lemma {:induction false} TwoBucketsForEver(hash: int -> int, n: nat, load: real, sched: seq<Action>)
    ensures Exec(hash, Init(n, 22, load), sched).mem.size == 2
    ensures NeverGrows(Exec(hash, Init(n, 22, load), sched))
  {
    if sched == [] {
      MaxSizeIs(22);
    } else {
      TwoBucketsForEver(hash, n, load, sched[..|sched| - 1]);
      ApplyNeverGrows(hash, Exec(hash, Init(n, 22, load), sched[..|sched| - 1]), sched[|sched| - 1]);
    }
  }
}
