/**
 The invariant of hazard pointers and of the stack built on them, step by step.
 The argument has the same shape as for the deque: an invariant of memory, what each thread may count
 on, and what a step of another thread may change.
 */
module SmrProof {
  import opened Linearizability
  import opened StackSpecs
  import opened Sequences
  import opened Smr

  // ---------------------------------------------------------------- memory

  /** A node that has been pushed and not released: its fields are frozen and must not be reused. */
  predicate Live(w: Where) { w.OnStack? || w.Popped? || w.Retired? }

  function Below(stack: seq<Ptr>, i: nat): Ptr {
    if i + 1 < |stack| then stack[i + 1] else NULL
  }

  /** stack is the list that top starts. */
  ghost predicate StackInv(m: Mem) {
    && Sized(m) && |m.own| > 0 && m.own[NULL].Nowhere?
    && Distinct(m.stack) && (forall i :: 0 <= i < |m.stack| ==> m.stack[i] < |m.own| && m.own[m.stack[i]].OnStack?)
    && m.top == (if m.stack == [] then NULL else m.stack[0])
    && (forall i {:trigger m.next[m.stack[i]]} :: 0 <= i < |m.stack| ==> m.next[m.stack[i]] == Below(m.stack, i))
  }

  /** Record value c may stand at r: its lists hold nodes that belong there, each once, and a guarded
      node, one that is in the slot and was seen at top since, has not been released. */
  ghost predicate RecFits(own: seq<Where>, order: seq<RecPtr>, r: RecPtr, c: Rec) {
    && Distinct(c.rlist + c.kept) && (forall x :: x in c.rlist + c.kept ==> x < |own| && own[x] == Retired(r))
    && Distinct(c.free) && (forall x :: x in c.free ==> x < |own| && own[x] == Free(r)) && |c.free| <= MAX_FREE_NODES
    && (c.guard != NULL ==> c.hp == c.guard < |own| && Live(own[c.guard]) && r in order)
    && (!c.active ==> c.kept == [] && c.rcount == |c.rlist|)
  }

  ghost predicate RecOk(m: Mem, r: RecPtr) {
    RecFits(m.own, m.order, r, R(m, r))
  }

  ghost predicate RecsInv(m: Mem) {
    |m.recs| > 0 && m.recs[NULL] == NoRec && forall r :: 0 <= r < |m.recs| ==> RecOk(m, r)
  }

  /** The record list: its i-th record (oldest first) links to the one before it, and heads a list no
      longer than the count it carries. */
  ghost predicate OrderInv(m: Mem) {
    && Distinct(m.order)
    && m.head == Last(m.order, |m.order|)
    && (forall i :: 0 <= i < |m.order| ==> 0 < m.order[i] < |m.recs|)
    && (forall i {:trigger m.recs[m.order[i]]} :: 0 <= i < |m.order| ==>
          m.recs[m.order[i]].next == Last(m.order, i) && m.recs[m.order[i]].nrThreads >= i + 1)
  }

  /** The newest of the first n records. */
  function Last(order: seq<RecPtr>, n: nat): RecPtr {
    if 0 < n <= |order| then order[n - 1] else NULL
  }

  ghost predicate MemInv(m: Mem) {
    StackInv(m) && RecsInv(m) && OrderInv(m)
  }

  // ---------------------------------------------------------------- threads

  predicate Registered(m: Mem, th: Local) {
    th.ri < |m.order| && m.order[th.ri] == th.rec && th.rec < |m.recs| && R(m, th.rec).active
  }

  /** A thread with a record, outside the walk of a scan. */
  predicate Ready(m: Mem, th: Local) {
    Registered(m, th) && R(m, th.rec).kept == [] && R(m, th.rec).rcount == |R(m, th.rec).rlist|
  }

  predicate Unlinked(m: Mem, th: Local) {
    && 0 < th.rec < |m.recs| && th.rec !in m.order
    && var c := R(m, th.rec);
       c.active && c.guard == NULL && c.rlist == [] && c.kept == [] && c.rcount == 0
  }

  predicate HasNode(m: Mem, th: Local, t: nat) {
    Ready(m, th) && th.op.Push? && Own(m, th.node) == Private(t) && Data(m, th.node) == th.op.v
  }

  predicate Guarding(m: Mem, th: Local) {
    Ready(m, th) && th.oldTop != NULL && R(m, th.rec).guard == th.oldTop
  }

  /** Every guarded node of this thread's retired list is in a slot that the scan has yet to read, or
      was found in one it has read. */
  ghost predicate ScanSees(m: Mem, th: Local) {
    forall i :: 0 <= i < |m.order| ==>
      var p := R(m, m.order[i]).guard;
      p != NULL && Own(m, p) == Retired(th.rec) ==> i < th.ci || p in th.plist
  }

  ghost predicate ThreadInv(m: Mem, th: Local, t: nat) {
    match th.pc
    case Idle => th.rec == NULL || Ready(m, th)
    case FindRec => th.rec == NULL
    case WalkRec => th.rec == NULL && th.ci <= |m.order| && th.cur == Last(m.order, th.ci)
    case ClaimRec => th.rec == NULL && 0 < th.ci <= |m.order| && th.cur == Last(m.order, th.ci)
    case CountRec => th.rec == NULL
    case ChkCount => th.rec == NULL
    case ReadCount => th.rec == NULL
    case StoreRH => th.rec == NULL
    case NewRec => th.rec == NULL
    case LinkRec => Unlinked(m, th)
    case SizeRec => Unlinked(m, th) && th.cnt <= |m.order| && th.cur == Last(m.order, th.cnt) == R(m, th.rec).next
    case PushRec =>
      Unlinked(m, th) && th.cnt <= |m.order| && th.cur == Last(m.order, th.cnt) == R(m, th.rec).next &&
      R(m, th.rec).nrThreads >= th.cnt + 1
    case NewNode => Ready(m, th) && th.op.Push?
    case ReadTop => HasNode(m, th, t)
    case WriteNext => HasNode(m, th, t)
    case CasPush => HasNode(m, th, t) && Next(m, th.node) == th.oldTop
    case RetPush => Ready(m, th) && th.op.Push?
    case PopRead => Ready(m, th) && th.op.Pop?
    case PopGuard => Ready(m, th) && th.op.Pop? && th.oldTop != NULL
    case PopCheck => Ready(m, th) && th.op.Pop? && th.oldTop != NULL && R(m, th.rec).hp == th.oldTop
    case PopNext => Guarding(m, th) && th.op.Pop?
    case CasPop => Guarding(m, th) && th.op.Pop? && th.newTop == Next(m, th.oldTop)
    case PopClear => Ready(m, th) && th.op.Pop? && Own(m, th.oldTop) == Popped(t)
    case PopData => Ready(m, th) && th.op.Pop? && Own(m, th.oldTop) == Popped(t)
    case Retire => Ready(m, th) && th.op.Pop? && Own(m, th.oldTop) == Popped(t)
    case ChkRH => Ready(m, th) && th.op.Pop?
    case ScanHead => Ready(m, th) && th.op.Pop?
    case ScanSlot =>
      && Ready(m, th) && th.op.Pop? && th.ci <= |m.order| && th.cur == Last(m.order, th.ci)
      && ScanSees(m, th) && |th.plist| + th.ci <= th.max && th.nr == 0
    case ScanFree =>
      && Registered(m, th) && th.op.Pop? && th.ci == 0 && ScanSees(m, th) && |th.plist| <= th.max
      && th.nr == |R(m, th.rec).kept| && forall x :: x in R(m, th.rec).kept ==> x in th.plist
    case RetPop => Ready(m, th) && th.op.Pop?
    case PeekRead => Ready(m, th) && th.op.Peek?
    case PeekGuard => Ready(m, th) && th.op.Peek? && th.oldTop != NULL
    case PeekCheck => Ready(m, th) && th.op.Peek? && th.oldTop != NULL && R(m, th.rec).hp == th.oldTop
    case PeekData => Guarding(m, th) && th.op.Peek?
    case PeekClear => Ready(m, th) && th.op.Peek?
    case RetPeek => Ready(m, th) && th.op.Peek?
    case RetEmpty => Ready(m, th) && !th.op.Push?
    case ExitClean => Ready(m, th)
    case ExitClear => Ready(m, th)
    case ExitRelease => Ready(m, th)
  }

  // ---------------------------------------------------------------- what other threads may do

  ghost predicate NodesKept(m: Mem, m': Mem, t: nat, r: RecPtr) {
    && |m.own| <= |m'.own|
    && (forall x :: 0 <= x < |m.own| ==>
          && ((m.own[x].Private? || m.own[x].Popped?) && m.own[x].t != t ==>
                m'.own[x] == m.own[x] && Next(m', x) == Next(m, x) && Data(m', x) == Data(m, x))
          && (Live(m.own[x]) ==> Next(m', x) == Next(m, x) && Data(m', x) == Data(m, x))
          && (m'.own[x].Retired? && m'.own[x].r != r ==> m.own[x] == m'.own[x]))
    && (forall x :: |m.own| <= x < |m'.own| ==> m'.own[x] == Private(t))
  }

  ghost predicate RecsKept(m: Mem, m': Mem, r: RecPtr) {
    && |m.recs| <= |m'.recs|
    && (forall q :: 0 <= q < |m.recs| && q != r ==> m'.recs[q] == m.recs[q])
    && (m'.order == m.order || (m'.order == m.order + [r] && R(m', r).guard == NULL))
    && (R(m', r).guard != NULL ==> R(m', r).guard == R(m, r).guard || Own(m', R(m', r).guard).OnStack?)
  }

  /** A step of thread t, whose record is r, may take m to m'. */
  ghost predicate Rely(m: Mem, m': Mem, t: nat, r: RecPtr) {
    Sized(m) && Sized(m') && NodesKept(m, m', t, r) && RecsKept(m, m', r)
  }

  lemma RecordStable(m: Mem, m': Mem, t: nat, r: RecPtr, th: Local)
    requires RecsKept(m, m', r) && th.rec != r
    ensures th.rec < |m.recs| ==> R(m', th.rec) == R(m, th.rec)
    ensures Registered(m, th) ==> Registered(m', th)
    ensures Ready(m, th) ==> Ready(m', th)
    ensures Unlinked(m, th) ==> Unlinked(m', th)
  {
  }

  lemma LastStable(m: Mem, m': Mem, r: RecPtr, n: nat)
    requires RecsKept(m, m', r) && n <= |m.order|
    ensures n <= |m'.order| && Last(m'.order, n) == Last(m.order, n)
  {
  }

  lemma PrivateStable(m: Mem, m': Mem, t: nat, r: RecPtr, x: Ptr, u: nat)
    requires Sized(m) && Sized(m') && NodesKept(m, m', t, r) && u != t
    requires Own(m, x) == Private(u) || Own(m, x) == Popped(u)
    ensures Own(m', x) == Own(m, x) && Next(m', x) == Next(m, x) && Data(m', x) == Data(m, x)
  {
  }

  /** A guarded node is never released, and its fields stay as they are. */
  lemma GuardStable(m: Mem, m': Mem, t: nat, r: RecPtr, th: Local)
    requires RecsInv(m) && Rely(m, m', t, r) && Guarding(m, th) && th.rec != r
    ensures Guarding(m', th) && Next(m', th.oldTop) == Next(m, th.oldTop) && Data(m', th.oldTop) == Data(m, th.oldTop)
  {
    RecordStable(m, m', t, r, th);
    assert RecOk(m, th.rec);
  }

  lemma ScanStable(m: Mem, m': Mem, t: nat, r: RecPtr, th: Local)
    requires OrderInv(m) && OrderInv(m') && Rely(m, m', t, r) && ScanSees(m, th) && th.rec != r
    ensures ScanSees(m', th)
  {
    forall i | 0 <= i < |m'.order| && R(m', m'.order[i]).guard != NULL && Own(m', R(m', m'.order[i]).guard) == Retired(th.rec)
      ensures i < th.ci || R(m', m'.order[i]).guard in th.plist
    {
      var q := m'.order[i];
      var p := R(m', q).guard;
      assert i < |m.order|;
      assert m.order[i] == q && R(m, q).guard == p;
      assert Own(m, p) == Retired(th.rec);
    }
  }

  lemma ThreadStable(m: Mem, m': Mem, t: nat, r: RecPtr, th: Local, u: nat)
    requires MemInv(m) && MemInv(m') && Rely(m, m', t, r) && ThreadInv(m, th, u) && u != t
    requires th.rec != NULL ==> th.rec != r
    ensures ThreadInv(m', th, u)
  {
    if th.rec == NULL {
      if th.pc.WalkRec? || th.pc.ClaimRec? { LastStable(m, m', r, th.ci); }
      NoRecStable(m, m', r, th, u);
    } else {
      RecordStable(m, m', t, r, th);
      match th.pc {
        case SizeRec => LastStable(m, m', r, th.cnt);
        case PushRec => LastStable(m, m', r, th.cnt);
        case ReadTop => PrivateStable(m, m', t, r, th.node, u);
        case WriteNext => PrivateStable(m, m', t, r, th.node, u);
        case CasPush => PrivateStable(m, m', t, r, th.node, u);
        case PopNext => GuardStable(m, m', t, r, th);
        case CasPop => GuardStable(m, m', t, r, th);
        case PeekData => GuardStable(m, m', t, r, th);
        case PopClear => PrivateStable(m, m', t, r, th.oldTop, u);
        case PopData => PrivateStable(m, m', t, r, th.oldTop, u);
        case Retire => PrivateStable(m, m', t, r, th.oldTop, u);
        case ScanSlot =>
          LastStable(m, m', r, th.ci);
          ScanStable(m, m', t, r, th);
        case ScanFree => ScanStable(m, m', t, r, th);
        case _ =>
      }
    }
  }

  lemma NoRecStable(m: Mem, m': Mem, r: RecPtr, th: Local, u: nat)
    requires ThreadInv(m, th, u) && th.rec == NULL && m.recs != [] && m.recs[NULL] == NoRec && OrderInv(m)
    requires th.pc.WalkRec? || th.pc.ClaimRec? ==> th.ci <= |m'.order| && Last(m'.order, th.ci) == Last(m.order, th.ci)
    ensures ThreadInv(m', th, u)
  {
  }

  // ---------------------------------------------------------------- what each step does to memory

  lemma NothingKeeps(m: Mem, t: nat, r: RecPtr)
    requires MemInv(m)
    ensures Rely(m, m, t, r)
  {
  }

  /** Thread t rewrites its own record. */
  lemma RecordKeeps(m: Mem, t: nat, r: RecPtr, c: Rec)
    requires MemInv(m) && 0 < r < |m.recs| && RecFits(m.own, m.order, r, c)
    requires r in m.order ==> c.next == R(m, r).next && c.nrThreads == R(m, r).nrThreads
    requires c.guard != NULL ==> c.guard == R(m, r).guard || Own(m, c.guard).OnStack?
    ensures MemInv(SetR(m, r, c)) && Rely(m, SetR(m, r, c), t, r)
  {
    var m' := SetR(m, r, c);
    forall q | 0 <= q < |m'.recs| ensures RecOk(m', q) { assert RecOk(m, q); }
  }

  /** What a record needs of the nodes survives changes to other nodes. */
  lemma FitsElsewhere(own: seq<Where>, own': seq<Where>, order: seq<RecPtr>, order': seq<RecPtr>, q: RecPtr, c: Rec)
    requires RecFits(own, order, q, c) && |own| <= |own'|
    requires forall x :: 0 <= x < |own| && (own[x] == Retired(q) || own[x] == Free(q)) ==> own'[x] == own[x]
    requires c.guard != NULL ==> Live(own'[c.guard])
    requires forall r :: r in order ==> r in order'
    ensures RecFits(own', order', q, c)
  {
  }

  /** A node of this thread changes place, and this thread's record with it. */
  lemma MoveKeeps(m: Mem, t: nat, r: RecPtr, c: Rec, x: Ptr, w: Where)
    requires MemInv(m) && 0 < r < |m.recs| && x < |m.own|
    requires m.own[x] == Popped(t) || m.own[x] == Retired(r)
    requires w == Retired(r) || w == Free(r) || w == Heap
    requires RecFits(m.own[x := w], m.order, r, c)
    requires c.next == R(m, r).next && c.nrThreads == R(m, r).nrThreads && c.guard == R(m, r).guard
    requires !Live(w) ==> forall q :: 0 <= q < |m.recs| ==> m.recs[q].guard != x
    ensures var m' := SetOwn(SetR(m, r, c), x, w); MemInv(m') && Rely(m, m', t, r)
  {
    var m' := SetOwn(SetR(m, r, c), x, w);
    forall q | 0 <= q < |m'.recs| ensures RecOk(m', q) {
      assert RecOk(m, q);
      if q != r { FitsElsewhere(m.own, m'.own, m.order, m'.order, q, R(m, q)); }
    }
    MoveKeepsStack(m, x, w, m');
    assert OrderInv(m');
    assert NodesKept(m, m', t, r) && RecsKept(m, m', r);
  }

  lemma MoveKeepsStack(m: Mem, x: Ptr, w: Where, m': Mem)
    requires StackInv(m) && x < |m.own| && !m.own[x].OnStack? && !m.own[x].Nowhere?
    requires m'.own == m.own[x := w] && m'.next == m.next && m'.data == m.data && m'.top == m.top && m'.stack == m.stack
    ensures StackInv(m')
  {
  }

  /** Thread t takes node p from its free list, or from the heap, and builds it. */
  lemma BuildKeeps(m: Mem, t: nat, r: RecPtr, free: seq<Ptr>, p: Ptr, v: int)
    requires MemInv(m) && 0 < r < |m.recs| && 0 < p <= |m.own|
    requires if free == R(m, r).free then p == |m.own| || m.own[p].Heap? else R(m, r).free == free + [p]
    ensures var m' := Build(SetR(m, r, R(m, r).(free := free)), p, t, v);
      MemInv(m') && Rely(m, m', t, r) && Own(m', p) == Private(t) && Data(m', p) == v
  {
    var c := R(m, r).(free := free);
    var m' := Build(SetR(m, r, c), p, t, v);
    assert RecOk(m, r);
    assert p < |m.own| ==> m.own[p].Heap? || m.own[p] == Free(r) by {
      if free != R(m, r).free { assert p in R(m, r).free; }
    }
    BuildKeepsRecs(m, m', r, free, p);
    BuildKeepsStack(m, p, m', t);
    assert OrderInv(m');
    assert NodesKept(m, m', t, r);
    assert RecsKept(m, m', r);
  }

  lemma BuildKeepsRecs(m: Mem, m': Mem, r: RecPtr, free: seq<Ptr>, p: Ptr)
    requires RecsInv(m) && 0 < r < |m.recs| && |m.own| <= |m'.own|
    requires m'.recs == m.recs[r := R(m, r).(free := free)] && m'.order == m.order
    requires p < |m.own| ==> m.own[p].Heap? || m.own[p] == Free(r)
    requires if free == R(m, r).free then p >= |m.own| || m.own[p].Heap? else R(m, r).free == free + [p]
    requires forall x :: 0 <= x < |m.own| && x != p ==> m'.own[x] == m.own[x]
    ensures RecsInv(m')
  {
    forall q | 0 <= q < |m'.recs| ensures RecOk(m', q) {
      assert RecOk(m, q);
      if q != r { FitsElsewhere(m.own, m'.own, m.order, m'.order, q, R(m, q)); }
      else { BuildFits(m.own, m'.own, m.order, r, R(m, r), free, p); }
    }
  }

  lemma BuildFits(own: seq<Where>, own': seq<Where>, order: seq<RecPtr>, r: RecPtr, c: Rec, free: seq<Ptr>, p: Ptr)
    requires RecFits(own, order, r, c) && |own| <= |own'|
    requires free == c.free || c.free == free + [p]
    requires p < |own| ==> own[p].Heap? || own[p] == Free(r)
    requires free == c.free ==> p >= |own| || own[p].Heap?
    requires forall x :: 0 <= x < |own| && x != p ==> own'[x] == own[x]
    ensures RecFits(own', order, r, c.(free := free))
  {
    forall x | x in free ensures x in c.free {
      var i :| 0 <= i < |free| && free[i] == x;
      assert c.free[i] == x;
    }
    assert Distinct(free) by {
      assert forall i :: 0 <= i < |free| ==> free[i] == c.free[i];
    }
    if free != c.free {
      forall i | 0 <= i < |free| ensures free[i] != p { assert c.free[i] != c.free[|free|]; }
    }
  }

  lemma BuildKeepsStack(m: Mem, p: Ptr, m': Mem, t: nat)
    requires StackInv(m) && 0 < p <= |m.own| && (p < |m.own| ==> !m.own[p].OnStack?)
    requires Sized(m') && |m'.own| >= |m.own| && m'.top == m.top && m'.stack == m.stack
    requires forall x :: 0 <= x < |m.own| && x != p ==> m'.own[x] == m.own[x] && m'.next[x] == m.next[x]
    ensures StackInv(m')
  {
    assert p !in m.stack;
    forall i | 0 <= i < |m'.stack| ensures m'.next[m'.stack[i]] == Below(m'.stack, i) {
      assert m.next[m.stack[i]] == Below(m.stack, i);
    }
  }

  lemma WriteNextKeeps(m: Mem, t: nat, r: RecPtr, p: Ptr, x: Ptr)
    requires MemInv(m) && Own(m, p) == Private(t)
    ensures var m' := m.(next := m.next[p := x]);
      MemInv(m') && Rely(m, m', t, r)
  {
    var m' := m.(next := m.next[p := x]);
    forall q | 0 <= q < |m'.recs| ensures RecOk(m', q) { assert RecOk(m, q); }
    assert p !in m.stack;
    assert StackInv(m');
  }

  lemma PushKeeps(m: Mem, t: nat, r: RecPtr, p: Ptr)
    requires MemInv(m) && Own(m, p) == Private(t) && Next(m, p) == m.top
    ensures var m' := SetOwn(m.(top := p, stack := [p] + m.stack), p, OnStack); MemInv(m') && Rely(m, m', t, r)
  {
    var m' := SetOwn(m.(top := p, stack := [p] + m.stack), p, OnStack);
    forall q | 0 <= q < |m'.recs| ensures RecOk(m', q) {
      assert RecOk(m, q);
      FitsElsewhere(m.own, m'.own, m.order, m'.order, q, R(m, q));
    }
    PushKeepsStack(m, p);
    assert NodesKept(m, m', t, r) && RecsKept(m, m', r);
  }

  lemma PushKeepsStack(m: Mem, p: Ptr)
    requires StackInv(m) && Own(m, p).Private? && Next(m, p) == m.top
    ensures StackInv(SetOwn(m.(top := p, stack := [p] + m.stack), p, OnStack))
  {
    var m' := SetOwn(m.(top := p, stack := [p] + m.stack), p, OnStack);
    assert p !in m.stack;
    assert forall i :: 0 < i < |m'.stack| ==> m'.stack[i] == m.stack[i - 1];
    forall i | 0 <= i < |m'.stack| ensures m'.next[m'.stack[i]] == Below(m'.stack, i) {
      if i > 0 { assert m.next[m.stack[i - 1]] == Below(m.stack, i - 1); }
    }
  }

  lemma PopKeeps(m: Mem, t: nat, r: RecPtr)
    requires MemInv(m) && m.stack != []
    ensures var m' := SetOwn(m.(top := Next(m, m.top), stack := m.stack[1..]), m.top, Popped(t));
      MemInv(m') && Rely(m, m', t, r)
  {
    var m' := SetOwn(m.(top := Next(m, m.top), stack := m.stack[1..]), m.top, Popped(t));
    assert m.top in m.stack;
    forall q | 0 <= q < |m'.recs| ensures RecOk(m', q) {
      assert RecOk(m, q);
      FitsElsewhere(m.own, m'.own, m.order, m'.order, q, R(m, q));
    }
    PopKeepsStack(m, t);
    assert NodesKept(m, m', t, r) && RecsKept(m, m', r);
  }

  lemma PopKeepsStack(m: Mem, t: nat)
    requires StackInv(m) && m.stack != []
    ensures StackInv(SetOwn(m.(top := Next(m, m.top), stack := m.stack[1..]), m.top, Popped(t)))
  {
    var m' := SetOwn(m.(top := Next(m, m.top), stack := m.stack[1..]), m.top, Popped(t));
    assert m.next[m.stack[0]] == Below(m.stack, 0);
    assert forall i :: 0 <= i < |m'.stack| ==> m'.stack[i] == m.stack[i + 1];
    forall i | 0 <= i < |m'.stack| ensures m'.next[m'.stack[i]] == Below(m'.stack, i) {
      assert m.next[m.stack[i + 1]] == Below(m.stack, i + 1);
    }
  }

  lemma NewRecKeeps(m: Mem, t: nat)
    requires MemInv(m)
    ensures var m' := m.(recs := m.recs + [NoRec]); MemInv(m') && Rely(m, m', t, |m.recs|)
  {
    var m' := m.(recs := m.recs + [NoRec]);
    NewRecFits(m);
    assert StackInv(m');
    assert OrderInv(m');
    assert NodesKept(m, m', t, |m.recs|);
  }

  lemma NewRecFits(m: Mem)
    requires RecsInv(m)
    ensures RecsInv(m.(recs := m.recs + [NoRec]))
  {
    var m' := m.(recs := m.recs + [NoRec]);
    forall q | 0 <= q < |m'.recs| ensures RecOk(m', q) { if q < |m.recs| { assert RecOk(m, q); } }
  }

  lemma PushRecKeeps(m: Mem, t: nat, r: RecPtr)
    requires MemInv(m) && 0 < r < |m.recs| && r !in m.order && R(m, r).guard == NULL
    requires R(m, r).next == m.head && R(m, r).nrThreads >= |m.order| + 1
    ensures var m' := m.(head := r, order := m.order + [r]); MemInv(m') && Rely(m, m', t, r)
  {
    var m' := m.(head := r, order := m.order + [r]);
    forall q | 0 <= q < |m'.recs| ensures RecOk(m', q) { assert RecOk(m, q); }
    assert forall i :: 0 <= i <= |m.order| ==> Last(m'.order, i) == Last(m.order, i);
  }

  lemma CleanKeeps(m: Mem, t: nat, r: RecPtr)
    requires MemInv(m) && 0 < r < |m.recs|
    ensures var m' := SetR(m.(own := Release(m.own, R(m, r).free)), r, R(m, r).(free := []));
      MemInv(m') && Rely(m, m', t, r)
  {
    var free := R(m, r).free;
    var m' := SetR(m.(own := Release(m.own, free)), r, R(m, r).(free := []));
    assert RecOk(m, r);
    assert forall x :: 0 <= x < |m.own| ==> m'.own[x] == if x in free then Heap else m.own[x];
    CleanKeepsRecs(m, m', r);
    assert StackInv(m');
    assert OrderInv(m');
    assert NodesKept(m, m', t, r);
    assert RecsKept(m, m', r);
  }

  lemma CleanKeepsRecs(m: Mem, m': Mem, r: RecPtr)
    requires RecsInv(m) && 0 < r < |m.recs| && |m.own| == |m'.own|
    requires m'.recs == m.recs[r := R(m, r).(free := [])] && m'.order == m.order
    requires forall x :: 0 <= x < |m.own| ==> m'.own[x] == if x in R(m, r).free then Heap else m.own[x]
    ensures RecsInv(m')
  {
    assert RecOk(m, r);
    forall q | 0 <= q < |m'.recs| ensures RecOk(m', q) {
      assert RecOk(m, q);
      if q != r { FitsElsewhere(m.own, m'.own, m.order, m'.order, q, R(m, q)); }
    }
  }

  // ---------------------------------------------------------------- a step keeps everything

  /** This thread has counted itself in hpCount but has not pushed its record yet. */
  predicate Counted(th: Local) {
    th.pc.ChkCount? || th.pc.ReadCount? || th.pc.StoreRH? || th.pc.NewRec? || th.pc.LinkRec? || th.pc.SizeRec? || th.pc.PushRec?
  }

  /** The record that a step works on. */
  function StepRec(th: Local, th': Local): RecPtr {
    if th.rec != NULL then th.rec else th'.rec
  }

  ghost predicate StepKept(m: Mem, th: Local, t: nat, addr: Ptr)
    requires Sized(m)
  {
    var (m', th', _) := Step(m, th, t, addr);
    MemInv(m') && Rely(m, m', t, StepRec(th, th')) && ThreadInv(m', th', t)
  }

  lemma CountersKeep(m: Mem, hpCount: nat, rh: nat, t: nat)
    requires MemInv(m)
    ensures var m' := m.(hpCount := hpCount, rh := rh); MemInv(m') && Rely(m, m', t, NULL)
  {
    var m' := m.(hpCount := hpCount, rh := rh);
    forall q | 0 <= q < |m'.recs| ensures RecOk(m', q) { assert RecOk(m, q); }
    assert StackInv(m') && OrderInv(m');
  }

  lemma CountReadsKeep(m: Mem, th: Local, t: nat, addr: Ptr)
    requires Sized(m) && ThreadInv(m, th, t) && (th.pc.FindRec? || th.pc.ChkCount? || th.pc.ReadCount?)
    requires m.head == Last(m.order, |m.order|)
    ensures Step(m, th, t, addr).0 == m && ThreadInv(m, Step(m, th, t, addr).1, t)
  {
  }

  lemma CountKeeps(m: Mem, th: Local, t: nat, addr: Ptr)
    requires MemInv(m) && ThreadInv(m, th, t) && (th.pc.CountRec? || th.pc.StoreRH?)
    ensures StepKept(m, th, t, addr)
  {
    CountersKeep(m, m.hpCount + 1, m.rh, t);
    CountersKeep(m, m.hpCount, th.nr * 2, t);
  }

  lemma WalkKeeps(m: Mem, th: Local, t: nat, addr: Ptr)
    requires MemInv(m) && ThreadInv(m, th, t) && (th.pc.WalkRec? || th.pc.ClaimRec?)
    requires th.cur != NULL ==> R(m, th.cur).active || th.pc.WalkRec?
    ensures StepKept(m, th, t, addr)
  {
    NothingKeeps(m, t, NULL);
    if th.cur != NULL { RecordAt(m, th.ci); }
  }

  lemma RecordAt(m: Mem, n: nat)
    requires OrderInv(m) && n <= |m.order| && Last(m.order, n) != NULL
    ensures n > 0 && m.order[n - 1] == Last(m.order, n) < |m.recs|
    ensures R(m, Last(m.order, n)).next == Last(m.order, n - 1)
  {
    assert m.recs[m.order[n - 1]].next == Last(m.order, n - 1);
  }

  lemma ClaimKeeps(m: Mem, th: Local, t: nat, addr: Ptr)
    requires MemInv(m) && ThreadInv(m, th, t) && th.pc.ClaimRec? && !R(m, th.cur).active
    ensures StepKept(m, th, t, addr)
  {
    RecordAt(m, th.ci);
    var c := R(m, th.cur).(active := true);
    assert RecOk(m, th.cur);
    RecordKeeps(m, t, th.cur, c);
    assert Ready(SetR(m, th.cur, c), Step(m, th, t, addr).1);
  }

  lemma NewRecordKeeps(m: Mem, th: Local, t: nat, addr: Ptr)
    requires MemInv(m) && ThreadInv(m, th, t) && m.hpCount > |m.order|
    requires th.pc.NewRec? || th.pc.LinkRec? || th.pc.SizeRec?
    ensures StepKept(m, th, t, addr)
  {
    if th.pc.NewRec? { NewRecKeeps(m, t); }
    else {
      var c := R(m, th.rec);
      assert RecOk(m, th.rec);
      RecordKeeps(m, t, th.rec, if th.pc.LinkRec? then c.(next := m.head) else c.(nrThreads := m.hpCount));
    }
  }

  lemma CasRecKeeps(m: Mem, th: Local, t: nat, addr: Ptr)
    requires MemInv(m) && ThreadInv(m, th, t) && th.pc.PushRec?
    ensures StepKept(m, th, t, addr)
  {
    if m.head == th.cur {
      SameHeadSameList(m, th.cnt);
      PushRecKeeps(m, t, th.rec);
    } else { NothingKeeps(m, t, th.rec); }
  }

  /** The record list only grows at its head, so a head that is still there heads the same list. */
  lemma SameHeadSameList(m: Mem, n: nat)
    requires OrderInv(m) && n <= |m.order| && m.head == Last(m.order, n)
    ensures n == |m.order|
  {
    NewestDiffers(m.order, n);
  }

  lemma NewestDiffers(order: seq<RecPtr>, n: nat)
    requires Distinct(order)
    ensures 0 < n < |order| ==> Last(order, n) != Last(order, |order|)
  {
    assert 0 < n < |order| ==> order[n - 1] != order[|order| - 1];
  }

  lemma NewNodeKeeps(m: Mem, th: Local, t: nat, addr: Ptr)
    requires MemInv(m) && ThreadInv(m, th, t) && th.pc.NewNode?
    ensures StepKept(m, th, t, addr)
  {
    var f := R(m, th.rec).free;
    assert RecOk(m, th.rec);
    assert SetR(m, th.rec, R(m, th.rec).(free := f)) == m;
    if f == [] {
      BuildKeeps(m, t, th.rec, f, Malloc(m, addr), th.op.v);
    } else {
      assert f[|f| - 1] in f;
      BuildKeeps(m, t, th.rec, f[..|f| - 1], f[|f| - 1], th.op.v);
    }
  }

  lemma PushStepKeeps(m: Mem, th: Local, t: nat, addr: Ptr)
    requires MemInv(m) && ThreadInv(m, th, t) && (th.pc.ReadTop? || th.pc.WriteNext? || th.pc.RetPush?)
    ensures StepKept(m, th, t, addr)
  {
    NothingKeeps(m, t, th.rec);
    if th.pc.WriteNext? { WriteNextKeeps(m, t, th.rec, th.node, th.oldTop); }
  }

  lemma CasPushKeeps(m: Mem, th: Local, t: nat, addr: Ptr)
    requires MemInv(m) && ThreadInv(m, th, t) && th.pc.CasPush?
    ensures StepKept(m, th, t, addr)
  {
    NothingKeeps(m, t, th.rec);
    if m.top == th.oldTop { PushKeeps(m, t, th.rec, th.node); }
  }

  /** What top is, when it is not null, is on the stack. */
  lemma TopOnStack(m: Mem)
    requires StackInv(m) && m.top != NULL
    ensures m.stack != [] && m.top == m.stack[0] && Own(m, m.top).OnStack?
  {
  }

  /** An instruction that only reads keeps everything if its thread then knows what it must. */
  lemma ReadKeeps(m: Mem, th: Local, t: nat, addr: Ptr)
    requires MemInv(m) && Step(m, th, t, addr).0 == m && ThreadInv(m, Step(m, th, t, addr).1, t)
    ensures StepKept(m, th, t, addr)
  {
    NothingKeeps(m, t, StepRec(th, Step(m, th, t, addr).1));
  }

  lemma TopReadKeeps(m: Mem, th: Local, t: nat, addr: Ptr)
    requires Sized(m) && ThreadInv(m, th, t) && (th.pc.PopRead? || th.pc.PeekRead?)
    ensures Step(m, th, t, addr).0 == m && ThreadInv(m, Step(m, th, t, addr).1, t)
  {
  }

  lemma EmployKeeps(m: Mem, th: Local, t: nat, addr: Ptr)
    requires MemInv(m) && ThreadInv(m, th, t) && (th.pc.PopGuard? || th.pc.PeekGuard?)
    ensures StepKept(m, th, t, addr)
  {
    assert RecOk(m, th.rec);
    RecordKeeps(m, t, th.rec, R(m, th.rec).(hp := th.oldTop, guard := NULL));
    EmployThread(m, th, t, addr);
  }

  lemma EmployThread(m: Mem, th: Local, t: nat, addr: Ptr)
    requires Sized(m) && ThreadInv(m, th, t) && (th.pc.PopGuard? || th.pc.PeekGuard?)
    ensures var (m', th', _) := Step(m, th, t, addr);
      m' == SetR(m, th.rec, R(m, th.rec).(hp := th.oldTop, guard := NULL)) && ThreadInv(m', th', t) && th'.rec == th.rec
  {
  }

  lemma GuardKeeps(m: Mem, th: Local, t: nat)
    requires MemInv(m) && Ready(m, th) && m.top == R(m, th.rec).hp && m.top != NULL
    ensures var m' := SetR(m, th.rec, R(m, th.rec).(guard := m.top)); MemInv(m') && Rely(m, m', t, th.rec)
  {
    TopOnStack(m);
    assert RecOk(m, th.rec);
    assert m.order[th.ri] in m.order;
    RecordKeeps(m, t, th.rec, R(m, th.rec).(guard := m.top));
  }

  lemma RecheckThread(m: Mem, th: Local, t: nat, addr: Ptr)
    requires Sized(m) && ThreadInv(m, th, t) && (th.pc.PopCheck? || th.pc.PeekCheck?) && m.top == th.oldTop
    ensures Step(m, th, t, addr).0 == SetR(m, th.rec, R(m, th.rec).(guard := m.top))
    ensures ThreadInv(Step(m, th, t, addr).0, Step(m, th, t, addr).1, t)
  {
  }

  lemma RecheckFails(m: Mem, th: Local, t: nat, addr: Ptr)
    requires Sized(m) && ThreadInv(m, th, t) && (th.pc.PopCheck? || th.pc.PeekCheck?) && m.top != th.oldTop
    ensures Step(m, th, t, addr).0 == m && ThreadInv(m, Step(m, th, t, addr).1, t)
  {
  }

  lemma RecheckKeeps(m: Mem, th: Local, t: nat, addr: Ptr)
    requires MemInv(m) && ThreadInv(m, th, t) && (th.pc.PopCheck? || th.pc.PeekCheck?)
    ensures StepKept(m, th, t, addr)
  {
    if m.top == th.oldTop {
      GuardKeeps(m, th, t);
      RecheckThread(m, th, t, addr);
    } else {
      RecheckFails(m, th, t, addr);
      ReadKeeps(m, th, t, addr);
    }
  }

  lemma PopReadsKeep(m: Mem, th: Local, t: nat, addr: Ptr)
    requires Sized(m) && ThreadInv(m, th, t) && (th.pc.PopNext? || th.pc.PopData? || th.pc.RetPop? || th.pc.RetEmpty?)
    ensures Step(m, th, t, addr).0 == m && ThreadInv(m, Step(m, th, t, addr).1, t)
  {
  }

  lemma CasPopKeeps(m: Mem, th: Local, t: nat, addr: Ptr)
    requires MemInv(m) && ThreadInv(m, th, t) && th.pc.CasPop?
    ensures StepKept(m, th, t, addr)
  {
    NothingKeeps(m, t, th.rec);
    if m.top == th.oldTop {
      TopOnStack(m);
      PopKeeps(m, t, th.rec);
    }
  }

  /** What the owner of record c may do to it with its own hazard slot or flag. */
  lemma OwnRecKeeps(m: Mem, th: Local, t: nat, c: Rec)
    requires MemInv(m) && Ready(m, th)
    requires c == R(m, th.rec).(hp := NULL, guard := NULL) || c == R(m, th.rec).(active := false)
    ensures MemInv(SetR(m, th.rec, c)) && Rely(m, SetR(m, th.rec, c), t, th.rec)
  {
    assert RecOk(m, th.rec);
    assert RecFits(m.own, m.order, th.rec, c);
    RecordKeeps(m, t, th.rec, c);
  }

  lemma ClearThread(m: Mem, th: Local, t: nat, addr: Ptr)
    requires Sized(m) && ThreadInv(m, th, t) && th.rec != NULL && (th.pc.PopClear? || th.pc.PeekClear?)
    ensures Step(m, th, t, addr).0 == SetR(m, th.rec, R(m, th.rec).(hp := NULL, guard := NULL))
    ensures ThreadInv(Step(m, th, t, addr).0, Step(m, th, t, addr).1, t)
  {
  }

  lemma ExitClearThread(m: Mem, th: Local, t: nat, addr: Ptr)
    requires Sized(m) && ThreadInv(m, th, t) && th.rec != NULL && th.pc.ExitClear?
    ensures Step(m, th, t, addr).0 == SetR(m, th.rec, R(m, th.rec).(hp := NULL, guard := NULL))
    ensures ThreadInv(Step(m, th, t, addr).0, Step(m, th, t, addr).1, t)
  {
  }

  lemma LeaveThread(m: Mem, th: Local, t: nat, addr: Ptr)
    requires Sized(m) && ThreadInv(m, th, t) && th.rec != NULL && th.pc.ExitRelease?
    ensures Step(m, th, t, addr).0 == SetR(m, th.rec, R(m, th.rec).(active := false))
    ensures ThreadInv(Step(m, th, t, addr).0, Step(m, th, t, addr).1, t)
  {
  }

  lemma HasRec(m: Mem, th: Local)
    requires OrderInv(m) && Registered(m, th)
    ensures th.rec != NULL
  {
  }

  lemma ClearKeeps(m: Mem, th: Local, t: nat, addr: Ptr)
    requires MemInv(m) && ThreadInv(m, th, t)
    requires th.pc.PopClear? || th.pc.PeekClear? || th.pc.ExitClear? || th.pc.ExitRelease?
    ensures StepKept(m, th, t, addr)
  {
    var c := R(m, th.rec);
    HasRec(m, th);
    if th.pc.ExitRelease? {
      OwnRecKeeps(m, th, t, c.(active := false));
      LeaveThread(m, th, t, addr);
    } else {
      OwnRecKeeps(m, th, t, c.(hp := NULL, guard := NULL));
      if th.pc.ExitClear? { ExitClearThread(m, th, t, addr); } else { ClearThread(m, th, t, addr); }
    }
  }

  lemma PeekReadsKeep(m: Mem, th: Local, t: nat, addr: Ptr)
    requires Sized(m) && ThreadInv(m, th, t) && (th.pc.PeekData? || th.pc.RetPeek? || th.pc.Idle?)
    ensures Step(m, th, t, addr).0 == m && ThreadInv(m, Step(m, th, t, addr).1, t)
  {
  }

  lemma CleanStepKeeps(m: Mem, th: Local, t: nat, addr: Ptr)
    requires MemInv(m) && ThreadInv(m, th, t) && th.pc.ExitClean?
    ensures StepKept(m, th, t, addr)
  {
    CleanKeeps(m, t, th.rec);
  }



  lemma RetireFits(m: Mem, r: RecPtr, c: Rec, x: Ptr)
    requires RecFits(m.own, m.order, r, c) && c.active && x < |m.own| && m.own[x].Popped?
    ensures RecFits(m.own[x := Retired(r)], m.order, r, c.(rlist := [x] + c.rlist, rcount := c.rcount + 1))
  {
    var a, b := c.rlist + c.kept, [x] + c.rlist + c.kept;
    assert x !in a;
    assert forall i :: 0 < i < |b| ==> b[i] == a[i - 1];
    forall y | y in b ensures y == x || y in a {
      var i :| 0 <= i < |b| && b[i] == y;
      if i > 0 { assert a[i - 1] == y; }
    }
    assert x !in c.free;
  }

  lemma RetireKeeps(m: Mem, th: Local, t: nat, addr: Ptr)
    requires MemInv(m) && ThreadInv(m, th, t) && th.pc.Retire?
    ensures StepKept(m, th, t, addr)
  {
    var r, x := th.rec, th.oldTop;
    assert RecOk(m, r);
    RetireFits(m, r, R(m, r), x);
    MoveKeeps(m, t, r, R(m, r).(rlist := [x] + R(m, r).rlist, rcount := R(m, r).rcount + 1), x, Retired(r));
  }

  lemma ScanReadKeeps(m: Mem, th: Local, t: nat, addr: Ptr)
    requires MemInv(m) && ThreadInv(m, th, t) && (th.pc.ChkRH? || th.pc.ScanHead?)
    ensures StepKept(m, th, t, addr)
  {
    NothingKeeps(m, t, th.rec);
    if th.pc.ScanHead? && m.order != [] {
      assert m.order[|m.order| - 1] == m.head;
      assert m.recs[m.order[|m.order| - 1]].nrThreads >= |m.order|;
    }
  }

  /** Reading one more slot keeps the promise of the scan: what was guarded there is now in plist. */
  lemma ScanSlotSees(m: Mem, th: Local)
    requires RecsInv(m) && ScanSees(m, th) && 0 < th.ci <= |m.order| && th.cur == m.order[th.ci - 1] < |m.recs|
    ensures ScanSees(m, th.(ci := th.ci - 1, plist := NextPlist(m, th)))
  {
    assert RecOk(m, th.cur);
    var p := R(m, th.cur).hp;
    assert p != NULL ==> (th.plist + [p])[|th.plist|] == p;
  }

  function NextPlist(m: Mem, th: Local): seq<Ptr> {
    if R(m, th.cur).hp != NULL then th.plist + [R(m, th.cur).hp] else th.plist
  }

  lemma ScanSlotThread(m: Mem, th: Local, t: nat, addr: Ptr)
    requires Sized(m) && ThreadInv(m, th, t) && th.pc.ScanSlot? && th.cur != NULL && th.ci > 0
    requires R(m, th.cur).next == Last(m.order, th.ci - 1)
    requires ScanSees(m, th.(ci := th.ci - 1, plist := NextPlist(m, th)))
    ensures Step(m, th, t, addr).0 == m && ThreadInv(m, Step(m, th, t, addr).1, t)
  {
    assert Step(m, th, t, addr).1 == th.(cur := R(m, th.cur).next, ci := th.ci - 1, plist := NextPlist(m, th));
  }

  lemma ScanSlotEnd(m: Mem, th: Local, t: nat, addr: Ptr)
    requires Sized(m) && ThreadInv(m, th, t) && th.pc.ScanSlot? && th.cur == NULL && (th.ci > 0 ==> Last(m.order, th.ci) != NULL)
    ensures Step(m, th, t, addr).0 == m && ThreadInv(m, Step(m, th, t, addr).1, t)
  {
  }

  lemma ScanSlotKeeps(m: Mem, th: Local, t: nat, addr: Ptr)
    requires MemInv(m) && ThreadInv(m, th, t) && th.pc.ScanSlot?
    ensures StepKept(m, th, t, addr)
  {
    if th.cur != NULL {
      RecordAt(m, th.ci);
      ScanSlotSees(m, th);
      ScanSlotThread(m, th, t, addr);
    } else {
      ScanSlotEnd(m, th, t, addr);
    }
    ReadKeeps(m, th, t, addr);
  }

  /** A node that a scan releases is guarded by nobody. */
  lemma ReleasedIsUnguarded(m: Mem, th: Local, x: Ptr)
    requires MemInv(m) && Registered(m, th) && th.ci == 0 && ScanSees(m, th)
    requires Own(m, x) == Retired(th.rec) && x != NULL && x !in th.plist
    ensures forall q :: 0 <= q < |m.recs| ==> m.recs[q].guard != x
  {
    forall q | 0 <= q < |m.recs| ensures m.recs[q].guard != x {
      if m.recs[q].guard == x { GuardWasSeen(m, th, q); }
    }
  }

  lemma GuardWasSeen(m: Mem, th: Local, q: RecPtr)
    requires RecsInv(m) && th.ci == 0 && ScanSees(m, th) && q < |m.recs|
    requires m.recs[q].guard != NULL && Own(m, m.recs[q].guard) == Retired(th.rec)
    ensures m.recs[q].guard in th.plist
  {
    assert RecOk(m, q);
    var i :| 0 <= i < |m.order| && m.order[i] == q;
  }

  function Rotated(i: nat, n: nat): nat {
    if i < n then i + 1 else if i == n then 0 else i
  }

  /** Moving the first node of the retired list to the kept ones loses and repeats nothing. */
  lemma KeepFits(m: Mem, r: RecPtr, c: Rec)
    requires RecFits(m.own, m.order, r, c) && c.rlist != [] && c.active
    ensures RecFits(m.own, m.order, r, c.(rlist := c.rlist[1..], kept := [c.rlist[0]] + c.kept))
  {
    var a, b := c.rlist + c.kept, c.rlist[1..] + ([c.rlist[0]] + c.kept);
    var n := |c.rlist| - 1;
    forall i | 0 <= i < |b| ensures b[i] == a[Rotated(i, n)] {}
    forall x | x in b ensures x in a {
      var i :| 0 <= i < |b| && b[i] == x;
      assert x == a[Rotated(i, n)];
    }
    assert Distinct(b);
  }

  /** Releasing the first node of the retired list leaves it in the free list at most. */
  lemma FreeFits(m: Mem, r: RecPtr, c: Rec, w: Where)
    requires RecFits(m.own, m.order, r, c) && c.rlist != [] && c.active && c.guard != c.rlist[0]
    requires w == Heap || (w == Free(r) && |c.free| < MAX_FREE_NODES)
    ensures c.rlist[0] < |m.own| && RecFits(m.own[c.rlist[0] := w], m.order, r,
      c.(rlist := c.rlist[1..], free := if w.Heap? then c.free else c.free + [c.rlist[0]]))
  {
    var x := c.rlist[0];
    var a, b := c.rlist + c.kept, c.rlist[1..] + c.kept;
    assert x in a;
    assert forall i :: 0 <= i < |b| ==> b[i] == a[i + 1];
    assert a[0] == x;
    assert x in a;
    forall y | y in b ensures y in a && y != x {
      var i :| 0 <= i < |b| && b[i] == y;
      assert a[i + 1] == y;
    }
    assert x !in c.free;
  }

  /** Memory after the scan of record r releases its node x. */
  function Released(m: Mem, r: RecPtr, x: Ptr): Mem {
    FreeData(SetR(m, r, R(m, r).(rlist := if R(m, r).rlist == [] then [] else R(m, r).rlist[1..])), r, x)
  }

  lemma ReleaseKeepsMem(m: Mem, th: Local, t: nat)
    requires MemInv(m) && Registered(m, th) && th.ci == 0 && ScanSees(m, th)
    requires R(m, th.rec).rlist != [] && R(m, th.rec).rlist[0] !in th.plist
    ensures var m' := Released(m, th.rec, R(m, th.rec).rlist[0]); MemInv(m') && Rely(m, m', t, th.rec)
  {
    var r := th.rec;
    var c := R(m, r);
    var x := c.rlist[0];
    assert RecOk(m, r);
    assert x in c.rlist + c.kept;
    ReleasedIsUnguarded(m, th, x);
    var w := if |c.free| < MAX_FREE_NODES then Free(r) else Heap;
    var c' := c.(rlist := c.rlist[1..], free := if w.Heap? then c.free else c.free + [x]);
    FreeFits(m, r, c, w);
    MoveKeeps(m, t, r, c', x, w);
    assert m.recs[r := c.(rlist := c.rlist[1..])][r := c'] == m.recs[r := c'];
  }

  lemma ReleaseKeepsSees(m: Mem, th: Local, x: Ptr)
    requires th.rec < |m.recs| && ScanSees(m, th)
    ensures ScanSees(Released(m, th.rec, x), th)
  {
    var m' := Released(m, th.rec, x);
    forall i | 0 <= i < |m'.order| && R(m', m'.order[i]).guard != NULL && Own(m', R(m', m'.order[i]).guard) == Retired(th.rec)
      ensures i < th.ci || R(m', m'.order[i]).guard in th.plist
    {
      assert R(m', m'.order[i]).guard == R(m, m.order[i]).guard;
    }
  }

  lemma ReleaseKeeps(m: Mem, th: Local, t: nat, addr: Ptr)
    requires MemInv(m) && ThreadInv(m, th, t) && th.pc.ScanFree?
    requires R(m, th.rec).rlist != [] && R(m, th.rec).rlist[0] !in th.plist
    ensures StepKept(m, th, t, addr)
  {
    var x := R(m, th.rec).rlist[0];
    ReleaseKeepsMem(m, th, t);
    ReleaseKeepsSees(m, th, x);
    assert Step(m, th, t, addr).0 == Released(m, th.rec, x);
  }

  lemma KeepOneKeeps(m: Mem, th: Local, t: nat, addr: Ptr)
    requires MemInv(m) && ThreadInv(m, th, t) && th.pc.ScanFree?
    requires R(m, th.rec).rlist != [] && R(m, th.rec).rlist[0] in th.plist
    ensures StepKept(m, th, t, addr)
  {
    var c := R(m, th.rec);
    assert RecOk(m, th.rec);
    KeepFits(m, th.rec, c);
    RecordKeeps(m, t, th.rec, c.(rlist := c.rlist[1..], kept := [c.rlist[0]] + c.kept));
    KeepOneThread(m, th, t, addr);
  }

  lemma KeepOneThread(m: Mem, th: Local, t: nat, addr: Ptr)
    requires Sized(m) && ThreadInv(m, th, t) && th.pc.ScanFree?
    requires R(m, th.rec).rlist != [] && R(m, th.rec).rlist[0] in th.plist
    ensures var (m', th', _) := Step(m, th, t, addr); ThreadInv(m', th', t) && th'.rec == th.rec
    ensures Step(m, th, t, addr).0 == SetR(m, th.rec, R(m, th.rec).(rlist := R(m, th.rec).rlist[1..], kept := [R(m, th.rec).rlist[0]] + R(m, th.rec).kept))
  {
  }

  lemma ScanEndFits(m: Mem, r: RecPtr, n: nat)
    requires RecsInv(m) && r < |m.recs| && R(m, r).rlist == [] && n == |R(m, r).kept|
    ensures RecFits(m.own, m.order, r, R(m, r).(rlist := R(m, r).kept, kept := [], rcount := n))
  {
    assert RecOk(m, r);
    assert [] + R(m, r).kept == R(m, r).kept == R(m, r).kept + [];
  }

  lemma ScanEndKeeps(m: Mem, th: Local, t: nat, addr: Ptr)
    requires MemInv(m) && ThreadInv(m, th, t) && th.pc.ScanFree? && R(m, th.rec).rlist == []
    ensures StepKept(m, th, t, addr)
  {
    ScanEndFits(m, th.rec, th.nr);
    RecordKeeps(m, t, th.rec, R(m, th.rec).(rlist := R(m, th.rec).kept, kept := [], rcount := th.nr));
  }

  lemma ScanFreeKeeps(m: Mem, th: Local, t: nat, addr: Ptr)
    requires MemInv(m) && ThreadInv(m, th, t) && th.pc.ScanFree?
    ensures StepKept(m, th, t, addr)
  {
    var l := R(m, th.rec).rlist;
    if l == [] { ScanEndKeeps(m, th, t, addr); }
    else if l[0] in th.plist { KeepOneKeeps(m, th, t, addr); }
    else { ReleaseKeeps(m, th, t, addr); }
  }

  lemma RecordStepKeeps(m: Mem, th: Local, t: nat, addr: Ptr)
    requires MemInv(m) && ThreadInv(m, th, t) && (Counted(th) ==> m.hpCount > |m.order|)
    requires Counted(th) || th.pc.FindRec? || th.pc.WalkRec? || th.pc.ClaimRec? || th.pc.CountRec?
    ensures StepKept(m, th, t, addr)
  {
    if th.pc.ClaimRec? && !R(m, th.cur).active { ClaimKeeps(m, th, t, addr); }
    else if th.pc.WalkRec? || th.pc.ClaimRec? { WalkKeeps(m, th, t, addr); }
    else if th.pc.PushRec? { CasRecKeeps(m, th, t, addr); }
    else if th.pc.NewRec? || th.pc.LinkRec? || th.pc.SizeRec? { NewRecordKeeps(m, th, t, addr); }
    else if th.pc.CountRec? || th.pc.StoreRH? { CountKeeps(m, th, t, addr); }
    else {
      CountReadsKeep(m, th, t, addr);
      ReadKeeps(m, th, t, addr);
    }
  }

  predicate Reads(pc: PC) {
    pc.PopRead? || pc.PeekRead? || pc.PopNext? || pc.PopData? || pc.RetPop? || pc.RetEmpty? || pc.PeekData? ||
    pc.RetPeek? || pc.Idle?
  }

  lemma StackReadKeeps(m: Mem, th: Local, t: nat, addr: Ptr)
    requires MemInv(m) && ThreadInv(m, th, t) && Reads(th.pc)
    ensures StepKept(m, th, t, addr)
  {
    if th.pc.PopRead? || th.pc.PeekRead? { TopReadKeeps(m, th, t, addr); }
    else if th.pc.PeekData? || th.pc.RetPeek? || th.pc.Idle? { PeekReadsKeep(m, th, t, addr); }
    else { PopReadsKeep(m, th, t, addr); }
    ReadKeeps(m, th, t, addr);
  }

  lemma StackStepKeeps(m: Mem, th: Local, t: nat, addr: Ptr)
    requires MemInv(m) && ThreadInv(m, th, t)
    requires !Counted(th) && !th.pc.FindRec? && !th.pc.WalkRec? && !th.pc.ClaimRec? && !th.pc.CountRec?
    ensures StepKept(m, th, t, addr)
  {
    if th.pc.NewNode? { NewNodeKeeps(m, th, t, addr); }
    else if th.pc.CasPush? { CasPushKeeps(m, th, t, addr); }
    else if th.pc.ReadTop? || th.pc.WriteNext? || th.pc.RetPush? { PushStepKeeps(m, th, t, addr); }
    else if th.pc.PopGuard? || th.pc.PeekGuard? { EmployKeeps(m, th, t, addr); }
    else if th.pc.PopCheck? || th.pc.PeekCheck? { RecheckKeeps(m, th, t, addr); }
    else if th.pc.CasPop? { CasPopKeeps(m, th, t, addr); }
    else if th.pc.Retire? { RetireKeeps(m, th, t, addr); }
    else if th.pc.ScanSlot? { ScanSlotKeeps(m, th, t, addr); }
    else if th.pc.ChkRH? || th.pc.ScanHead? { ScanReadKeeps(m, th, t, addr); }
    else if th.pc.ScanFree? { ScanFreeKeeps(m, th, t, addr); }
    else if th.pc.ExitClean? { CleanStepKeeps(m, th, t, addr); }
    else if Reads(th.pc) { StackReadKeeps(m, th, t, addr); }
    else { ClearKeeps(m, th, t, addr); }
  }

  /** Every instruction keeps the invariant of memory and leaves the other threads what they count on. */
  lemma StepKeeps(m: Mem, th: Local, t: nat, addr: Ptr)
    requires MemInv(m) && ThreadInv(m, th, t) && (Counted(th) ==> m.hpCount > |m.order|)
    ensures StepKept(m, th, t, addr)
  {
    if Counted(th) || th.pc.FindRec? || th.pc.WalkRec? || th.pc.ClaimRec? || th.pc.CountRec? {
      RecordStepKeeps(m, th, t, addr);
    } else {
      StackStepKeeps(m, th, t, addr);
    }
  }

  // ---------------------------------------------------------------- what a client sees

  function Values(data: seq<int>, s: seq<Ptr>): seq<int> {
    seq(|s|, i requires 0 <= i < |s| => if s[i] < |data| then data[s[i]] else 0)
  }

  /** The values on the stack, top first. */
  function Contents(m: Mem): seq<int> {
    Values(m.data, m.stack)
  }

  function PhaseNow(m: Mem, th: Local): Phase<Op, Ret> {
    match th.pc
    case Idle => Quiet
    case ExitClean => Quiet
    case ExitClear => Quiet
    case ExitRelease => Quiet
    case RetPush => Done(th.op, Pushed)
    case RetEmpty => Done(th.op, Empty)
    case PopClear => Done(th.op, Got(Data(m, th.oldTop)))
    case PopData => Done(th.op, Got(Data(m, th.oldTop)))
    case PeekData => Done(th.op, Got(Data(m, th.oldTop)))
    case Retire => Done(th.op, Got(th.ret))
    case ChkRH => Done(th.op, Got(th.ret))
    case ScanHead => Done(th.op, Got(th.ret))
    case ScanSlot => Done(th.op, Got(th.ret))
    case ScanFree => Done(th.op, Got(th.ret))
    case RetPop => Done(th.op, Got(th.ret))
    case PeekClear => Done(th.op, Got(th.ret))
    case RetPeek => Done(th.op, Got(th.ret))
    case _ => Pending(th.op, {})
  }

  lemma ContentsStable(m: Mem, m': Mem, t: nat, r: RecPtr)
    requires StackInv(m) && Rely(m, m', t, r) && m'.stack == m.stack
    ensures Contents(m') == Contents(m)
  {
    forall i | 0 <= i < |m.stack| ensures Values(m'.data, m'.stack)[i] == Values(m.data, m.stack)[i] {
      assert Data(m', m.stack[i]) == Data(m, m.stack[i]);
    }
  }

  lemma PhaseStable(m: Mem, m': Mem, t: nat, r: RecPtr, th: Local, u: nat)
    requires RecsInv(m) && Rely(m, m', t, r) && ThreadInv(m, th, u) && u != t
    requires th.rec != NULL ==> th.rec != r
    ensures PhaseNow(m', th) == PhaseNow(m, th)
  {
    if th.pc.PopClear? || th.pc.PopData? { PrivateStable(m, m', t, r, th.oldTop, u); }
    if th.pc.PeekData? {
      assert RecOk(m, th.rec);
      GuardStable(m, m', t, r, th);
    }
  }

  ghost predicate Explains(m: Mem, p: Phase<Op, Ret>, t: nat, es: seq<Event<Op, Ret>>, m': Mem, p': Phase<Op, Ret>) {
    if es == [] then Contents(m') == Contents(m) && p' == p
    else
      && |es| == 1 && es[0].t == t && !es[0].Observe? && Advance(p, es[0]) == p'
      && (if es[0].Commit? then StackSpec(Contents(m), es[0].op) == (Contents(m'), es[0].ret)
          else Contents(m') == Contents(m))
  }

  lemma CasPushRefines(m: Mem, th: Local, t: nat, addr: Ptr)
    requires StackInv(m) && ThreadInv(m, th, t) && th.pc.CasPush?
    ensures var (m', th', es) := Step(m, th, t, addr); Explains(m, PhaseNow(m, th), t, es, m', PhaseNow(m', th'))
  {
    var (m', th', es) := Step(m, th, t, addr);
    if m.top == th.oldTop { assert Contents(m') == [th.op.v] + Contents(m); }
  }

  lemma CasPopRefines(m: Mem, th: Local, t: nat, addr: Ptr)
    requires StackInv(m) && ThreadInv(m, th, t) && th.pc.CasPop?
    ensures var (m', th', es) := Step(m, th, t, addr); Explains(m, PhaseNow(m, th), t, es, m', PhaseNow(m', th'))
  {
    if m.top == th.oldTop {
      TopOnStack(m);
      TailValues(m.data, m.stack);
    }
  }

  lemma TailValues(data: seq<int>, s: seq<Ptr>)
    requires s != []
    ensures Values(data, s[1..]) == Values(data, s)[1..]
  {
  }

  lemma PopReadRefines(m: Mem, th: Local, t: nat, addr: Ptr)
    requires StackInv(m) && ThreadInv(m, th, t) && th.pc.PopRead?
    ensures var (m', th', es) := Step(m, th, t, addr); Explains(m, PhaseNow(m, th), t, es, m', PhaseNow(m', th'))
  {
    if m.top == NULL { assert m.stack == []; } else { TopOnStack(m); }
  }

  lemma TopReadRefines(m: Mem, th: Local, t: nat, addr: Ptr)
    requires StackInv(m) && ThreadInv(m, th, t)
    requires th.pc.PopRead? || th.pc.PeekRead? || th.pc.PeekCheck?
    ensures var (m', th', es) := Step(m, th, t, addr); Explains(m, PhaseNow(m, th), t, es, m', PhaseNow(m', th'))
  {
    if th.pc.PopRead? { PopReadRefines(m, th, t, addr); }
    else if m.top == NULL { assert m.stack == []; }
    else { TopOnStack(m); }
  }

  predicate Visible(pc: PC) {
    pc.CasPush? || pc.CasPop? || pc.PopRead? || pc.PeekRead? || pc.PeekCheck?
  }

  lemma QuietStack(m: Mem, th: Local, t: nat, addr: Ptr)
    requires Sized(m) && !Visible(th.pc)
    ensures Step(m, th, t, addr).0.stack == m.stack
  {
  }

  /** An instruction that takes no effect leaves the phase as it is, or returns. */
  ghost predicate QuietPhase(m: Mem, th: Local, t: nat, addr: Ptr)
    requires Sized(m)
  {
    var (m', th', es) := Step(m, th, t, addr);
    if es == [] then PhaseNow(m', th') == PhaseNow(m, th)
    else |es| == 1 && es[0].Return? && es[0].t == t && Advance(PhaseNow(m, th), es[0]) == PhaseNow(m', th')
  }

  lemma QuietRecord(m: Mem, th: Local, t: nat, addr: Ptr)
    requires Sized(m)
    requires Counted(th) || th.pc.FindRec? || th.pc.WalkRec? || th.pc.ClaimRec? || th.pc.CountRec? ||
             th.pc.ExitClean? || th.pc.ExitClear? || th.pc.ExitRelease?
    ensures QuietPhase(m, th, t, addr)
  {
  }

  lemma QuietScan(m: Mem, th: Local, t: nat, addr: Ptr)
    requires Sized(m)
    requires th.pc.Retire? || th.pc.ChkRH? || th.pc.ScanHead? || th.pc.ScanSlot? || th.pc.ScanFree?
    ensures QuietPhase(m, th, t, addr)
  {
  }

  lemma QuietStep(m: Mem, th: Local, t: nat, addr: Ptr)
    requires Sized(m) && !Visible(th.pc)
    ensures QuietPhase(m, th, t, addr)
  {
    if Counted(th) || th.pc.FindRec? || th.pc.WalkRec? || th.pc.ClaimRec? || th.pc.CountRec? ||
       th.pc.ExitClean? || th.pc.ExitClear? || th.pc.ExitRelease? {
      QuietRecord(m, th, t, addr);
    } else if th.pc.Retire? || th.pc.ChkRH? || th.pc.ScanHead? || th.pc.ScanSlot? || th.pc.ScanFree? {
      QuietScan(m, th, t, addr);
    }
  }

  lemma StepRefinesStack(m: Mem, th: Local, t: nat, addr: Ptr)
    requires MemInv(m) && ThreadInv(m, th, t) && (Counted(th) ==> m.hpCount > |m.order|)
    ensures StepKept(m, th, t, addr)
    ensures var (m', th', es) := Step(m, th, t, addr); Explains(m, PhaseNow(m, th), t, es, m', PhaseNow(m', th'))
  {
    StepKeeps(m, th, t, addr);
    if th.pc.CasPush? { CasPushRefines(m, th, t, addr); }
    else if th.pc.CasPop? { CasPopRefines(m, th, t, addr); }
    else if Visible(th.pc) { TopReadRefines(m, th, t, addr); }
    else {
      QuietStep(m, th, t, addr);
      QuietStack(m, th, t, addr);
      var (m', th', _) := Step(m, th, t, addr);
      ContentsStable(m, m', t, StepRec(th, th'));
    }
  }

  // ---------------------------------------------------------------- whole runs

  /** How many threads have been counted in hpCount and have yet to push their record. */
  function CountedThreads(threads: seq<Local>): (n: nat)
    ensures (exists t :: 0 <= t < |threads| && Counted(threads[t])) ==> n > 0
  {
    if threads == [] then 0
    else CountedThreads(threads[..|threads| - 1]) + if Counted(threads[|threads| - 1]) then 1 else 0
  }

  lemma {:induction false} CountedUpdate(threads: seq<Local>, t: nat, th: Local)
    requires t < |threads|
    ensures CountedThreads(threads[t := th]) + (if Counted(threads[t]) then 1 else 0)
         == CountedThreads(threads) + (if Counted(th) then 1 else 0)
  {
    var n := |threads| - 1;
    if t == n {
      assert threads[t := th][..n] == threads[..n];
    } else {
      assert threads[t := th][..n] == threads[..n][t := th];
      CountedUpdate(threads[..n], t, th);
    }
  }

  ghost predicate ThreadsInv(m: Mem, threads: seq<Local>) {
    && (forall t :: 0 <= t < |threads| ==> ThreadInv(m, threads[t], t))
    && (forall t, u :: 0 <= t < |threads| && 0 <= u < |threads| && t != u && threads[t].rec != NULL
          ==> threads[t].rec != threads[u].rec)
    && m.hpCount == |m.order| + CountedThreads(threads)
  }

  ghost predicate PhasesAgree(m: Mem, threads: seq<Local>, trace: seq<Event<Op, Ret>>) {
    forall t: nat :: PhaseOf(trace, t) == if t < |threads| then PhaseNow(m, threads[t]) else Quiet
  }

  ghost predicate History(m: Mem, trace: seq<Event<Op, Ret>>) {
    Legal(StackSpec, [], trace) && ValueAfter(StackSpec, [], trace) == Contents(m)
  }

  ghost predicate Inv(s: State) {
    MemInv(s.mem) && ThreadsInv(s.mem, s.threads) && PhasesAgree(s.mem, s.threads, s.trace) && History(s.mem, s.trace)
  }

  /** A thread's record is there and marked active. */
  lemma OwnRecordActive(m: Mem, th: Local, t: nat)
    requires ThreadInv(m, th, t) && th.rec != NULL
    ensures th.rec < |m.recs| && R(m, th.rec).active
  {
  }

  /** A step works on the thread's own record, on an inactive one or on a new one. */
  lemma StepRecFree(m: Mem, th: Local, t: nat, addr: Ptr)
    requires Sized(m) && th.rec == NULL && ThreadInv(m, th, t)
    ensures var r := Step(m, th, t, addr).1.rec; r == NULL || r == |m.recs| || !R(m, r).active
  {
  }

  predicate Registering(th: Local) {
    Counted(th) || th.pc.FindRec? || th.pc.WalkRec? || th.pc.ClaimRec? || th.pc.CountRec?
  }

  lemma RegisteringCounts(m: Mem, th: Local, t: nat, addr: Ptr)
    requires Sized(m) && Registering(th)
    ensures var (m', th', _) := Step(m, th, t, addr);
      m'.hpCount - |m'.order| == m.hpCount - |m.order| + (if Counted(th') then 1 else 0) - (if Counted(th) then 1 else 0)
  {
  }

  predicate Reclaiming(pc: PC) {
    pc.Retire? || pc.ChkRH? || pc.ScanHead? || pc.ScanSlot? || pc.ScanFree? || pc.ExitClean? || pc.ExitClear? ||
    pc.ExitRelease? || pc.NewNode?
  }

  lemma ReclaimingCounts(m: Mem, th: Local, t: nat, addr: Ptr)
    requires Sized(m) && Reclaiming(th.pc)
    ensures var (m', th', _) := Step(m, th, t, addr);
      m'.hpCount == m.hpCount && m'.order == m.order && !Registering(th')
  {
  }

  lemma OtherCounts(m: Mem, th: Local, t: nat, addr: Ptr)
    requires Sized(m) && !Registering(th) && !Reclaiming(th.pc)
    ensures var (m', th', _) := Step(m, th, t, addr);
      m'.hpCount == m.hpCount && m'.order == m.order && !Registering(th')
  {
  }

  lemma StepCounts(m: Mem, th: Local, t: nat, addr: Ptr)
    requires Sized(m)
    ensures var (m', th', _) := Step(m, th, t, addr);
      m'.hpCount - |m'.order| == m.hpCount - |m.order| + (if Counted(th') then 1 else 0) - (if Counted(th) then 1 else 0)
  {
    if Registering(th) { RegisteringCounts(m, th, t, addr); }
    else if Reclaiming(th.pc) { ReclaimingCounts(m, th, t, addr); }
    else { OtherCounts(m, th, t, addr); }
  }

  lemma StepKeepsRec(m: Mem, th: Local, t: nat, addr: Ptr)
    requires Sized(m) && ThreadInv(m, th, t) && th.rec != NULL
    ensures var th' := Step(m, th, t, addr).1; th'.rec == th.rec || th'.rec == NULL
  {
  }

  lemma ThreadsKept(m: Mem, threads: seq<Local>, t: nat, addr: Ptr)
    requires MemInv(m) && ThreadsInv(m, threads) && t < |threads| && StepKept(m, threads[t], t, addr)
    ensures var (m', th', _) := Step(m, threads[t], t, addr); ThreadsInv(m', threads[t := th'])
    ensures forall u :: 0 <= u < |threads| && u != t ==>
      PhaseNow(Step(m, threads[t], t, addr).0, threads[u]) == PhaseNow(m, threads[u])
  {
    var th := threads[t];
    var (m', th', _) := Step(m, th, t, addr);
    var threads' := threads[t := th'];
    StepCounts(m, th, t, addr);
    CountedUpdate(threads, t, th');
    forall u | 0 <= u < |threads'|
      ensures ThreadInv(m', threads'[u], u)
      ensures u != t ==> PhaseNow(m', threads[u]) == PhaseNow(m, threads[u])
      ensures u != t && threads[u].rec != NULL ==> threads[u].rec != th'.rec
    {
      if u != t { OtherKept(m, threads, t, addr, u); }
    }
  }

  lemma OtherKept(m: Mem, threads: seq<Local>, t: nat, addr: Ptr, u: nat)
    requires MemInv(m) && ThreadsInv(m, threads) && t < |threads| && StepKept(m, threads[t], t, addr)
    requires u < |threads| && u != t
    ensures var (m', th', _) := Step(m, threads[t], t, addr);
      && ThreadInv(m', threads[u], u) && PhaseNow(m', threads[u]) == PhaseNow(m, threads[u])
      && (threads[u].rec != NULL ==> threads[u].rec != th'.rec)
  {
    var (m', th', _) := Step(m, threads[t], t, addr);
    OtherRecord(m, threads, t, addr, u);
    ThreadStable(m, m', t, StepRec(threads[t], th'), threads[u], u);
    PhaseStable(m, m', t, StepRec(threads[t], th'), threads[u], u);
  }

  lemma OtherRecord(m: Mem, threads: seq<Local>, t: nat, addr: Ptr, u: nat)
    requires Sized(m) && ThreadsInv(m, threads) && t < |threads| && u < |threads| && u != t
    ensures var th' := Step(m, threads[t], t, addr).1;
      threads[u].rec != NULL ==> threads[u].rec != StepRec(threads[t], th') && threads[u].rec != th'.rec
  {
    if threads[u].rec != NULL {
      OwnRecordActive(m, threads[u], u);
      if threads[t].rec == NULL { StepRecFree(m, threads[t], t, addr); } else { StepKeepsRec(m, threads[t], t, addr); }
    }
  }

  lemma PhasesKept(m: Mem, threads: seq<Local>, trace: seq<Event<Op, Ret>>, t: nat, m': Mem, th': Local, es: seq<Event<Op, Ret>>)
    requires PhasesAgree(m, threads, trace) && History(m, trace) && t < |threads|
    requires Explains(m, PhaseNow(m, threads[t]), t, es, m', PhaseNow(m', th'))
    requires forall u :: 0 <= u < |threads| && u != t ==> PhaseNow(m', threads[u]) == PhaseNow(m, threads[u])
    ensures PhasesAgree(m', threads[t := th'], trace + es) && History(m', trace + es)
  {
    if es == [] { assert trace + es == trace; }
    else {
      assert es == [es[0]];
      AppendEvent(StackSpec, [], trace, es[0]);
    }
  }

  lemma ContinueKeeps(s: State, t: nat, addr: Ptr)
    requires Inv(s) && t < |s.threads|
    ensures Inv(Apply(s, Continue(t, addr)))
  {
    var th := s.threads[t];
    StepRefinesStack(s.mem, th, t, addr);
    var (m', th', es) := Step(s.mem, th, t, addr);
    ThreadsKept(s.mem, s.threads, t, addr);
    PhasesKept(s.mem, s.threads, s.trace, t, m', th', es);
  }

  /** An idle thread sets out on a call or on its exit. */
  lemma EnterKeeps(m: Mem, threads: seq<Local>, t: nat, th': Local)
    requires ThreadsInv(m, threads) && t < |threads|
    requires ThreadInv(m, th', t) && th'.rec == threads[t].rec && !Counted(threads[t]) && !Counted(th')
    ensures ThreadsInv(m, threads[t := th'])
  {
    var threads' := threads[t := th'];
    CountedUpdate(threads, t, th');
    forall u | 0 <= u < |threads'| ensures ThreadInv(m, threads'[u], u) {}
  }

  lemma InvokeKeeps(s: State, t: nat, op: Op)
    requires Inv(s) && t < |s.threads| && s.threads[t].pc.Idle?
    ensures Inv(Apply(s, Invoke(t, op)))
  {
    var th := s.threads[t].(op := op);
    var th' := if th.rec == NULL then th.(pc := FindRec) else Start(th);
    EnterKeeps(s.mem, s.threads, t, th');
    PhasesKept(s.mem, s.threads, s.trace, t, s.mem, th', [Call(t, op)]);
  }

  lemma ExitKeeps(s: State, t: nat)
    requires Inv(s) && t < |s.threads| && s.threads[t].pc.Idle? && s.threads[t].rec != NULL
    ensures Inv(Apply(s, Exit(t)))
  {
    var th' := s.threads[t].(pc := ExitClean);
    EnterKeeps(s.mem, s.threads, t, th');
    PhasesKept(s.mem, s.threads, s.trace, t, s.mem, th', []);
    assert s.trace + [] == s.trace;
  }

  lemma ApplyKeeps(s: State, act: Action)
    requires Inv(s)
    ensures Inv(Apply(s, act))
  {
    if act.t < |s.threads| {
      match act {
        case Invoke(t, op) => if s.threads[t].pc.Idle? { InvokeKeeps(s, t, op); }
        case Continue(t, addr) => ContinueKeeps(s, t, addr);
        case Exit(t) => if s.threads[t].pc.Idle? && s.threads[t].rec != NULL { ExitKeeps(s, t); }
      }
    }
  }

  lemma {:induction false} NobodyCounted(threads: seq<Local>)
    requires forall t :: 0 <= t < |threads| ==> !Counted(threads[t])
    ensures CountedThreads(threads) == 0
  {
    if threads != [] { NobodyCounted(threads[..|threads| - 1]); }
  }

  lemma {:induction false} RunKeeps(n: nat, sched: seq<Action>)
    ensures Inv(Exec(Init(n), sched))
  {
    if sched == [] {
      NobodyCounted(Init(n).threads);
      assert RecOk(Init(n).mem, NULL);
    } else {
      RunKeeps(n, sched[..|sched| - 1]);
      ApplyKeeps(Exec(Init(n), sched[..|sched| - 1]), sched[|sched| - 1]);
    }
  }
}
