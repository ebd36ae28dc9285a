/**
 The hash set behaves as a set of elements while buckets are initialised and the table doubles.

 The list's own guarantees are used as they stand in ListProof; what is added is that every start cell
 holds an unmarked dummy in front of the key looked for, so no store ever goes to a thread's copy of a cell.
 */
module HashSetProof {
  import opened Linearizability
  import opened HashSet
  import opened BucketChoice
  import L = ListCore
  import P = ListProof
  import S = SplitOrder

  /** limitBits is the logarithm of the number of cells that the segments have room for. */
  ghost predicate HashOk(hash: int -> int, limitBits: nat) {
    forall e :: GoodHash(hash(e), limitBits)
  }

  // ---------------------------------------------------------------- memory

  predicate Dummy(k: L.Key) { k.k % 2 == 0 }

  predicate NodeOk(hash: int -> int, list: L.Mem, p: L.Ptr) {
    var k := L.KeyOf(list, p);
    if Dummy(k) then !L.Next(list, p).marked else k == ElementKey(hash, k.e)
  }

  /** Elements are stored under their own keys, and dummies are never marked. */
  ghost predicate KeysInv(hash: int -> int, list: L.Mem) {
    forall p: L.Ptr :: P.Published(list, p) ==> NodeOk(hash, list, p)
  }

  /** p is the dummy of bucket b. */
  predicate IsBucket(list: L.Mem, b: nat, p: L.Ptr) {
    P.Published(list, p) && L.KeyOf(list, p) == BucketKey(b)
  }

  ghost predicate TableInv(m: Mem) {
    && m.size == S.Pow2(m.bits) && 1 <= m.bits <= SizeBits(m.limitBits) && 1 <= m.limitBits <= 31
    && ARRAY_SIZE * m.segmentSize == S.Pow2(m.limitBits)
    && MaxSize(m.segmentSize) == (if m.limitBits <= 30 then S.Pow2(m.limitBits) else -0x8000_0000)
    && 0 in m.cells
    && (forall b :: b in m.cells ==> b < m.size && IsBucket(m.list, b, m.cells[b]))
    && (forall b :: b in m.cells ==> Segment(m, b) in m.segments)
  }

  ghost predicate MemInv(hash: int -> int, m: Mem) {
    P.MemInv(m.list) && KeysInv(hash, m.list) && TableInv(m)
  }

  /** The elements in the set. */
  ghost function Elements(list: L.Mem): set<int> {
    set k | k in P.KeySet(list) && !Dummy(k) :: k.e
  }

  // ---------------------------------------------------------------- threads

  /** The list call of th starts at an unmarked dummy in front of its key. */
  ghost predicate CallOk(m: Mem, call: L.Local, t: nat, kind: L.Kind, key: L.Key) {
    && P.LInv(m.list, call, t) && call.from.Copy? && call.kind == kind && call.key == key
    && Dummy(L.KeyOf(m.list, call.copy.p))
  }

  predicate HasCell(m: Mem, b: nat) { b in m.cells }

  predicate Chosen(hash: int -> int, m: Mem, th: Local)
    requires th.Busy?
  {
    th.bits <= 31 && th.bucket == S.Low31(hash(th.op.e)) % S.Pow2(th.bits) && th.bucket < m.size
  }

  /** Each bucket on the stack is the parent of the one before it. */
  predicate StackOk(m: Mem, bucket: nat, stack: seq<nat>) {
    && (stack != [] ==> stack[0] == bucket)
    && (forall i :: 0 <= i < |stack| ==> 0 < stack[i] < m.size)
    && (forall i :: 0 < i < |stack| ==> stack[i] == S.Parent(stack[i - 1]))
  }

  predicate GoalOk(m: Mem, th: Local)
    requires th.Busy?
  {
    var b := Top(th.stack);
    match th.goal
    case TestBucket => th.stack == [] && th.target == th.bucket
    case NeedBucket => th.stack == [] && th.target == th.bucket && HasCell(m, th.bucket)
    case StartAt => th.stack == [] && th.target == th.bucket && HasCell(m, th.bucket)
    case TestParent => th.stack != [] && th.target == S.Parent(b)
    case NeedParent => th.stack != [] && th.target == S.Parent(b) && HasCell(m, th.target)
    case StartParent => th.stack != [] && th.target == S.Parent(b) && HasCell(m, th.target)
    case CheckSet => th.stack != [] && th.target == b && HasCell(m, b) && Cell(m, b) == th.addr
    case CheckDone => th.stack != [] && th.target == b && HasCell(m, b) && Cell(m, b) == th.addr
  }

  predicate Asking(pc: PC) { pc.GetSize? || pc.GetSegment? || pc.TestSegment? || pc.NewSegment? || pc.GetCell? }
  predicate Setting(pc: PC) { pc.SetSegment? || pc.SetNewSegment? || pc.SetCell? }

  /** A call that has answered: it took effect, or saw the answer it gives. */
  predicate Answered(th: Local)
    requires th.Busy?
  {
    th.call.took || th.call.ans in th.call.seen
  }

  ghost predicate ThreadInv(hash: int -> int, m: Mem, th: Local, t: nat)
    requires th.Busy?
  {
    var b := Top(th.stack);
    && IsOp(th.op)
    && (th.pc.ReadSize? || (Chosen(hash, m, th) && StackOk(m, th.bucket, th.stack)))
    && match th.pc
       case ReadSize => th.stack == []
       case RunList => CallOk(m, th.call, t, th.op.kind, ElementKey(hash, th.op.e))
       case RunDummy => th.stack != [] && CallOk(m, th.call, t, L.AddAddr, BucketKey(b))
       case RunCheck =>
         && th.stack != [] && CallOk(m, th.call, t, L.Search, BucketKey(b)) && IsBucket(m.list, b, th.addr)
         && !th.call.took && false !in th.call.seen
       case ReadOldSize => th.op.kind.Add? && th.call.took && th.call.ans
       case IncCount => th.op.kind.Add? && th.call.took && th.call.ans
       case ReadCount => th.op.kind.Add? && th.call.took && th.call.ans
       case Grow => th.op.kind.Add? && th.call.took && th.call.ans && th.oldSize < S.Pow2(m.limitBits) && m.limitBits <= 30
       case DecCount => th.op.kind.Remove? && th.call.took && th.call.ans
       case Leave => Answered(th)
       case Crash => false
       case _ =>
         if Asking(th.pc) then th.target < m.size && GoalOk(m, th) && (th.pc.GetCell? ==> Segment(m, th.target) in m.segments)
         else th.stack != [] && IsBucket(m.list, b, th.addr) && (th.pc.SetCell? ==> Segment(m, b) in m.segments)
  }

  // ---------------------------------------------------------------- what other threads may do

  ghost predicate Rely(m: Mem, m': Mem, t: nat) {
    && P.Rely(m.list, m'.list, t)
    && m.size <= m'.size && m'.segmentSize == m.segmentSize && m'.limitBits == m.limitBits && m.segments <= m'.segments
    && (forall b :: b in m.cells ==> b in m'.cells && m'.cells[b] == m.cells[b])
  }

  lemma CallStable(hash: int -> int, m: Mem, m': Mem, t: nat, call: L.Local, u: nat, kind: L.Kind, key: L.Key)
    requires KeysInv(hash, m'.list) && P.Rely(m.list, m'.list, t) && CallOk(m, call, u, kind, key) && u != t
    ensures CallOk(m', call, u, kind, key)
  {
    StartStable(hash, m, m', t, call, u);
    P.ThreadStable(m.list, m'.list, t, call, u);
  }

  lemma StartStable(hash: int -> int, m: Mem, m': Mem, t: nat, call: L.Local, u: nat)
    requires KeysInv(hash, m'.list) && P.Rely(m.list, m'.list, t) && call.from.Copy? && P.Pinned(m.list, call)
    requires Dummy(L.KeyOf(m.list, call.copy.p))
    ensures P.Pinned(m'.list, call) && Dummy(L.KeyOf(m'.list, call.copy.p))
  {
    assert P.Published(m'.list, call.copy.p);
    assert NodeOk(hash, m'.list, call.copy.p);
  }

  lemma BucketStable(m: Mem, m': Mem, t: nat, b: nat, p: L.Ptr)
    requires P.Rely(m.list, m'.list, t) && IsBucket(m.list, b, p)
    ensures IsBucket(m'.list, b, p)
  {
  }

  lemma GoalStable(m: Mem, m': Mem, t: nat, th: Local)
    requires Rely(m, m', t) && th.Busy? && GoalOk(m, th)
    ensures GoalOk(m', th)
  {
  }

  lemma ThreadStable(hash: int -> int, m: Mem, m': Mem, t: nat, th: Local, u: nat)
    requires KeysInv(hash, m'.list) && Rely(m, m', t) && th.Busy? && ThreadInv(hash, m, th, u) && u != t
    ensures ThreadInv(hash, m', th, u)
  {
    var b := Top(th.stack);
    if Asking(th.pc) { GoalStable(m, m', t, th); }
    else if Setting(th.pc) { BucketStable(m, m', t, b, th.addr); }
    else if th.pc.RunList? { CallStable(hash, m, m', t, th.call, u, th.op.kind, ElementKey(hash, th.op.e)); }
    else if th.pc.RunDummy? { CallStable(hash, m, m', t, th.call, u, L.AddAddr, BucketKey(b)); }
    else if th.pc.RunCheck? {
      CallStable(hash, m, m', t, th.call, u, L.Search, BucketKey(b));
      BucketStable(m, m', t, b, th.addr);
    }
  }

  // ---------------------------------------------------------------- steps on the table

  ghost predicate StepKept(hash: int -> int, m: Mem, th: Local, t: nat)
    requires th.Busy?
  {
    var (m', th', es) := Step(hash, m, th, t);
    MemInv(hash, m') && Rely(m, m', t) && (th'.Busy? ==> ThreadInv(hash, m', th', t))
  }

  lemma NothingKeeps(hash: int -> int, m: Mem, t: nat)
    requires MemInv(hash, m)
    ensures Rely(m, m, t)
  {
    P.NothingKeeps(m.list, t);
  }

  /** A step on the table alone. */
  ghost predicate TableStep(m: Mem, m': Mem) {
    && m'.list == m.list && TableInv(m') && m.size <= m'.size && m'.segmentSize == m.segmentSize
    && m'.limitBits == m.limitBits && m.segments <= m'.segments
    && (forall b :: b in m.cells ==> b in m'.cells && m'.cells[b] == m.cells[b])
  }

  lemma TableKeeps(hash: int -> int, m: Mem, m': Mem, t: nat)
    requires MemInv(hash, m) && TableStep(m, m')
    ensures MemInv(hash, m') && Rely(m, m', t)
  {
    P.NothingKeeps(m.list, t);
  }

  lemma BucketInRange(h: nat, i: nat)
    ensures h % S.Pow2(i) < S.Pow2(i)
  {
  }

  lemma ReadSizeKeeps(hash: int -> int, m: Mem, th: Local, t: nat)
    requires HashOk(hash, m.limitBits) && MemInv(hash, m) && th.Busy? && ThreadInv(hash, m, th, t) && th.pc.ReadSize?
    ensures StepKept(hash, m, th, t)
  {
    NothingKeeps(hash, m, t);
    BucketInRange(S.Low31(hash(th.op.e)), m.bits);
    GoodBucket(th.op.kind, hash(th.op.e), m.bits, m.limitBits);
  }

  lemma BelowModulus(a: nat, b: nat)
    requires a < b
    ensures a % b == a
  {
  }

  /** get_bucket takes its argument modulo the size, which changes nothing: it is below the size already. */
  lemma AskOn(hash: int -> int, m: Mem, th: Local, t: nat)
    requires m.size > 0 && th.Busy? && th.pc.GetSize? && th.target % m.size == th.target
    ensures Step(hash, m, th, t) == (m, th.(pc := GetSegment), [])
  {
  }

  lemma GetSizeThread(hash: int -> int, m: Mem, th: Local, t: nat)
    requires TableInv(m) && th.Busy? && ThreadInv(hash, m, th, t) && th.pc.GetSize?
    ensures var (m', th', es) := Step(hash, m, th, t); TableStep(m, m') && th'.Busy? && ThreadInv(hash, m', th', t)
  {
    BelowModulus(th.target, m.size);
    AskOn(hash, m, th, t);
  }

  lemma GetSegmentThread(hash: int -> int, m: Mem, th: Local, t: nat)
    requires TableInv(m) && th.Busy? && ThreadInv(hash, m, th, t) && (th.pc.GetSegment? || th.pc.TestSegment?)
    ensures var (m', th', es) := Step(hash, m, th, t); TableStep(m, m') && th'.Busy? && ThreadInv(hash, m', th', t)
  {
  }

  lemma NewSegmentThread(hash: int -> int, m: Mem, th: Local, t: nat)
    requires TableInv(m) && th.Busy? && ThreadInv(hash, m, th, t) && th.pc.NewSegment?
    ensures var (m', th', es) := Step(hash, m, th, t); TableStep(m, m') && th'.Busy? && ThreadInv(hash, m', th', t)
  {
    assert Step(hash, m, th, t).1 == th.(pc := GetCell);
  }

  lemma AskKeeps(hash: int -> int, m: Mem, th: Local, t: nat)
    requires MemInv(hash, m) && th.Busy? && ThreadInv(hash, m, th, t)
    requires th.pc.GetSize? || th.pc.GetSegment? || th.pc.TestSegment? || th.pc.NewSegment?
    ensures StepKept(hash, m, th, t)
  {
    if th.pc.GetSize? { GetSizeThread(hash, m, th, t); }
    else if th.pc.NewSegment? { NewSegmentThread(hash, m, th, t); }
    else { GetSegmentThread(hash, m, th, t); }
    TableKeeps(hash, m, Step(hash, m, th, t).0, t);
  }

  /** Both the cell found and the one to be set hold the one unmarked node with this key. */
  lemma OneDummy(hash: int -> int, list: L.Mem, b: nat, p: L.Ptr, q: L.Ptr)
    requires P.MemInv(list) && KeysInv(hash, list) && b < S.Pow2(31) && IsBucket(list, b, p) && IsBucket(list, b, q)
    ensures p == q && p in list.chain && !L.Next(list, p).marked && BucketKey(b) in P.KeySet(list)
  {
    S.DummiesAreEven(b, 0);
    assert NodeOk(hash, list, p) && NodeOk(hash, list, q);
    P.InChain(list, p);
    P.InChain(list, q);
    P.SameKey(list, p, q);
  }

  lemma SizeBelow(m: Mem)
    requires TableInv(m)
    ensures m.size <= S.Pow2(30) && S.Pow2(30) < S.Pow2(31)
  {
    S.Pow2Grows(m.bits, 30);
  }

  lemma SegmentInBounds(size: nat, b: nat)
    requires b < ARRAY_SIZE * size
    ensures b / size < ARRAY_SIZE
  {
  }

  lemma StackInBounds(hash: int -> int, m: Mem, th: Local, t: nat)
    requires TableInv(m) && th.Busy? && ThreadInv(hash, m, th, t) && Setting(th.pc)
    ensures Segment(m, Top(th.stack)) < ARRAY_SIZE
  {
    S.Pow2Grows(m.bits, m.limitBits);
    SegmentInBounds(m.segmentSize, Top(th.stack));
  }

  lemma SetSegmentThread(hash: int -> int, m: Mem, th: Local, t: nat)
    requires TableInv(m) && th.Busy? && ThreadInv(hash, m, th, t) && (th.pc.SetSegment? || th.pc.SetNewSegment?)
    requires Segment(m, Top(th.stack)) < ARRAY_SIZE
    ensures var (m', th', es) := Step(hash, m, th, t); TableStep(m, m') && th'.Busy? && ThreadInv(hash, m', th', t)
  {
  }

  lemma CellIsSet(hash: int -> int, m: Mem, th: Local, t: nat)
    requires TableInv(m) && th.Busy? && ThreadInv(hash, m, th, t) && th.pc.SetCell? && P.Sized(m.list)
    requires Top(th.stack) in m.cells && m.cells[Top(th.stack)] == th.addr
    ensures var (m', th', es) := Step(hash, m, th, t); TableStep(m, m') && th'.Busy? && ThreadInv(hash, m', th', t)
  {
  }

  lemma SetCellThread(hash: int -> int, m: Mem, th: Local, t: nat)
    requires TableInv(m) && th.Busy? && ThreadInv(hash, m, th, t) && th.pc.SetCell?
    requires Top(th.stack) !in m.cells
    ensures var (m', th', es) := Step(hash, m, th, t); TableStep(m, m') && th'.Busy? && ThreadInv(hash, m', th', t)
  {
  }

  lemma SetCellKeeps(hash: int -> int, m: Mem, th: Local, t: nat)
    requires MemInv(hash, m) && th.Busy? && ThreadInv(hash, m, th, t) && Setting(th.pc)
    ensures StepKept(hash, m, th, t)
  {
    var b := Top(th.stack);
    if b in m.cells {
      SizeBelow(m);
      OneDummy(hash, m.list, b, th.addr, m.cells[b]);
    }
    if th.pc.SetCell? && b in m.cells { CellIsSet(hash, m, th, t); }
    else if th.pc.SetCell? { SetCellThread(hash, m, th, t); }
    else {
      StackInBounds(hash, m, th, t);
      SetSegmentThread(hash, m, th, t);
    }
    TableKeeps(hash, m, Step(hash, m, th, t).0, t);
  }

  predicate Counting(pc: PC) {
    pc.ReadOldSize? || pc.IncCount? || pc.ReadCount? || pc.Grow? || pc.DecCount? || pc.Leave?
  }

  lemma ReadCountThread(hash: int -> int, m: Mem, th: Local, t: nat)
    requires TableInv(m) && th.Busy? && ThreadInv(hash, m, th, t) && th.pc.ReadCount?
    ensures var (m', th', es) := Step(hash, m, th, t); m' == m && th'.Busy? && ThreadInv(hash, m', th', t)
  {
  }

  lemma CountThread(hash: int -> int, m: Mem, th: Local, t: nat)
    requires TableInv(m) && th.Busy? && ThreadInv(hash, m, th, t) && Counting(th.pc) && !th.pc.Grow? && !th.pc.ReadCount?
    ensures var (m', th', es) := Step(hash, m, th, t); TableStep(m, m') && (th'.Busy? ==> ThreadInv(hash, m', th', t))
  {
    if th.pc.IncCount? { IncThread(hash, m, th, t); }
    else if th.pc.DecCount? { DecThread(hash, m, th, t); }
  }

  lemma IncThread(hash: int -> int, m: Mem, th: Local, t: nat)
    requires TableInv(m) && th.Busy? && ThreadInv(hash, m, th, t) && th.pc.IncCount?
    ensures var (m', th', es) := Step(hash, m, th, t); TableStep(m, m') && th'.Busy? && ThreadInv(hash, m', th', t)
  {
  }

  lemma DecThread(hash: int -> int, m: Mem, th: Local, t: nat)
    requires TableInv(m) && th.Busy? && ThreadInv(hash, m, th, t) && th.pc.DecCount?
    ensures var (m', th', es) := Step(hash, m, th, t); TableStep(m, m') && th'.Busy? && ThreadInv(hash, m', th', t)
  {
  }

  /** The table doubles only while it is smaller than it may get. */
  lemma GrowTable(m: Mem)
    requires TableInv(m) && m.size < S.Pow2(m.limitBits) && m.limitBits <= 30
    ensures TableStep(m, m.(size := 2 * m.size, bits := m.bits + 1))
  {
  }

  lemma GrowThread(hash: int -> int, m: Mem, th: Local, t: nat)
    requires TableInv(m) && th.Busy? && ThreadInv(hash, m, th, t) && th.pc.Grow?
    ensures var (m', th', es) := Step(hash, m, th, t);
      && (m' == m || (m.size < S.Pow2(m.limitBits) && m.limitBits <= 30 && m' == m.(size := 2 * m.size, bits := m.bits + 1)))
      && th'.Busy? && (m.size <= m'.size ==> ThreadInv(hash, m', th', t))
  {
  }

  lemma CountKeeps(hash: int -> int, m: Mem, th: Local, t: nat)
    requires MemInv(hash, m) && th.Busy? && ThreadInv(hash, m, th, t) && Counting(th.pc)
    ensures StepKept(hash, m, th, t)
  {
    if th.pc.Grow? {
      GrowThread(hash, m, th, t);
      if m.size < S.Pow2(m.limitBits) && m.limitBits <= 30 { GrowTable(m); }
    } else if th.pc.ReadCount? { ReadCountThread(hash, m, th, t); }
    else { CountThread(hash, m, th, t); }
    TableKeeps(hash, m, Step(hash, m, th, t).0, t);
  }

  // ---------------------------------------------------------------- steps on the list

  /** What a thread may look for: a dummy, which it does not remove, or an element. */
  predicate GoodCall(hash: int -> int, kind: L.Kind, key: L.Key) {
    if Dummy(key) then !kind.Remove? else key == ElementKey(hash, key.e)
  }

  lemma ListStepKeys(hash: int -> int, list: L.Mem, call: L.Local, t: nat, list': L.Mem)
    requires KeysInv(hash, list) && P.Rely(list, list', t) && P.OnlyOwnKey(list, call, list')
    requires GoodCall(hash, call.kind, call.key)
    ensures KeysInv(hash, list')
  {
    forall p: L.Ptr | P.Published(list', p) ensures NodeOk(hash, list', p) {
      if P.Published(list, p) { assert NodeOk(hash, list, p); }
    }
  }

  lemma EnterKeys(hash: int -> int, list: L.Mem, kind: L.Kind, key: L.Key, from: L.Cell, copy: L.Ptr, t: nat)
    requires P.MemInv(list) && KeysInv(hash, list)
    ensures KeysInv(hash, L.Enter(list, kind, key, from, copy, t).0)
  {
    var list' := L.Enter(list, kind, key, from, copy, t).0;
    forall p: L.Ptr | P.Published(list', p) ensures NodeOk(hash, list', p) {
      assert NodeOk(hash, list, p);
    }
  }

  lemma ListChangeKeeps(hash: int -> int, m: Mem, list': L.Mem, t: nat)
    requires MemInv(hash, m) && P.MemInv(list') && KeysInv(hash, list') && P.Rely(m.list, list', t)
    ensures MemInv(hash, m.(list := list')) && Rely(m, m.(list := list'), t)
  {
    var m' := m.(list := list');
    forall b | b in m'.cells ensures b < m'.size && IsBucket(m'.list, b, m'.cells[b]) {
      BucketStable(m, m', t, b, m.cells[b]);
    }
  }

  /** One step of a list call: its memory, and what the thread then knows. */
  ghost predicate CallKept(hash: int -> int, m: Mem, call: L.Local, t: nat, kind: L.Kind, key: L.Key) {
    var (list', call', e) := L.Step(m.list, call);
    var m' := m.(list := list');
    && MemInv(hash, m') && Rely(m, m', t) && CallOk(m', call', t, kind, key)
    && P.Agrees(m.list, call, list', e) && P.SameCall(call, call', e)
  }

  lemma CallKeeps(hash: int -> int, m: Mem, call: L.Local, t: nat, kind: L.Kind, key: L.Key)
    requires MemInv(hash, m) && CallOk(m, call, t, kind, key) && GoodCall(hash, kind, key)
    ensures CallKept(hash, m, call, t, kind, key)
  {
    var (list', call', e) := L.Step(m.list, call);
    P.StepKeeps(m.list, call, t);
    P.StaysTheCall(m.list, call, t);
    P.StepOnlyOwnKey(m.list, call, t);
    AfterCall(hash, m, call, t, kind, key, list', call', e);
  }

  lemma AfterCall(hash: int -> int, m: Mem, call: L.Local, t: nat, kind: L.Kind, key: L.Key,
                  list': L.Mem, call': L.Local, e: L.Effect)
    requires MemInv(hash, m) && CallOk(m, call, t, kind, key) && GoodCall(hash, kind, key)
    requires P.MemInv(list') && P.Rely(m.list, list', t) && P.LInv(list', call', t) && P.SameCall(call, call', e)
    requires P.OnlyOwnKey(m.list, call, list')
    ensures var m' := m.(list := list'); MemInv(hash, m') && Rely(m, m', t) && CallOk(m', call', t, kind, key)
  {
    ListStepKeys(hash, m.list, call, t, list');
    ListChangeKeeps(hash, m, list', t);
    SameStart(m.list, list', t, call, call', e);
  }

  lemma SameStart(list: L.Mem, list': L.Mem, t: nat, call: L.Local, call': L.Local, e: L.Effect)
    requires P.Pinned(list, call) && call.from.Copy? && P.Rely(list, list', t) && P.SameCall(call, call', e)
    ensures L.KeyOf(list', call'.copy.p) == L.KeyOf(list, call.copy.p)
  {
  }

  lemma EnterCall(hash: int -> int, m: Mem, kind: L.Kind, key: L.Key, copy: L.Ptr, t: nat)
    requires MemInv(hash, m) && P.Published(m.list, copy) && Dummy(L.KeyOf(m.list, copy)) && L.Less(L.KeyOf(m.list, copy), key)
    ensures var (list', call) := L.Enter(m.list, kind, key, L.Copy, copy, t);
      var m' := m.(list := list');
      MemInv(hash, m') && Rely(m, m', t) && CallOk(m', call, t, kind, key) && P.KeySet(list') == P.KeySet(m.list)
  {
    var (list', call) := L.Enter(m.list, kind, key, L.Copy, copy, t);
    assert NodeOk(hash, m.list, copy);
    P.EnterKeeps(m.list, kind, key, L.Copy, copy, t);
    EnterKeys(hash, m.list, kind, key, L.Copy, copy, t);
    ListChangeKeeps(hash, m, list', t);
  }

  /** The start of a call is in front of its key. */
  lemma ElementBehind(hash: int -> int, m: Mem, th: Local)
    requires TableInv(m) && th.Busy? && Chosen(hash, m, th) && HasCell(m, th.bucket)
    ensures var p := Cell(m, th.bucket);
      P.Published(m.list, p) && Dummy(L.KeyOf(m.list, p)) && L.Less(L.KeyOf(m.list, p), ElementKey(hash, th.op.e))
  {
    SizeBelow(m);
    S.DummiesAreEven(th.bucket, 0);
    S.DummyPrecedesElement(S.Low31(hash(th.op.e)), th.bits);
  }

  lemma ParentBehind(m: Mem, b: nat)
    requires TableInv(m) && 0 < b < m.size && HasCell(m, S.Parent(b))
    ensures var p := Cell(m, S.Parent(b));
      P.Published(m.list, p) && Dummy(L.KeyOf(m.list, p)) && L.Less(L.KeyOf(m.list, p), BucketKey(b))
  {
    SizeBelow(m);
    S.ParentSmaller(b);
    S.DummiesAreEven(S.Parent(b), 0);
    S.Pow2Grows(31, 32);
    S.ParentPrecedes(b, 32);
  }

  lemma KeysAreGood(hash: int -> int, e: int, kind: L.Kind)
    ensures GoodCall(hash, kind, ElementKey(hash, e)) && !Dummy(ElementKey(hash, e))
  {
    S.DummiesAreEven(0, S.Low31(hash(e)));
  }

  lemma BucketsAreGood(hash: int -> int, m: Mem, b: nat, kind: L.Kind)
    requires TableInv(m) && b < m.size && !kind.Remove?
    ensures GoodCall(hash, kind, BucketKey(b)) && Dummy(BucketKey(b))
  {
    SizeBelow(m);
    S.DummiesAreEven(b, 0);
  }

  // ---------------------------------------------------------------- get_bucket delivers

  /** A cell is null exactly if its bucket has not been initialised. */
  lemma NullMeansUnset(m: Mem, b: nat)
    requires TableInv(m) && P.Sized(m.list)
    ensures Cell(m, b) == L.NULL <==> b !in m.cells
  {
  }

  lemma PushParent(m: Mem, bucket: nat, stack: seq<nat>)
    requires TableInv(m) && StackOk(m, bucket, stack) && stack != [] && S.Parent(Top(stack)) !in m.cells
    ensures StackOk(m, bucket, stack + [S.Parent(Top(stack))]) && S.Parent(S.Parent(Top(stack))) < m.size
  {
    var b := Top(stack);
    S.ParentSmaller(b);
    S.ParentSmaller(S.Parent(b));
  }

  lemma DeliverTest(hash: int -> int, m: Mem, th: Local, t: nat)
    requires TableInv(m) && P.Sized(m.list) && th.Busy? && ThreadInv(hash, m, th, t)
    requires th.pc.GetCell? && (th.goal.TestBucket? || th.goal.NeedBucket?)
    ensures var (m', th', es) := Step(hash, m, th, t); m' == m && th'.Busy? && ThreadInv(hash, m, th', t) && es == []
  {
    NullMeansUnset(m, th.bucket);
    if th.goal.TestBucket? && th.bucket !in m.cells { S.ParentSmaller(th.bucket); }
  }

  lemma DeliverParent(hash: int -> int, m: Mem, th: Local, t: nat)
    requires TableInv(m) && P.Sized(m.list) && th.Busy? && ThreadInv(hash, m, th, t)
    requires th.pc.GetCell? && (th.goal.TestParent? || th.goal.NeedParent?)
    ensures var (m', th', es) := Step(hash, m, th, t); m' == m && th'.Busy? && ThreadInv(hash, m, th', t) && es == []
  {
    NullMeansUnset(m, th.target);
    S.ParentSmaller(Top(th.stack));
    if th.goal.TestParent? && th.target !in m.cells { PushParent(m, th.bucket, th.stack); }
  }

  lemma PopStack(m: Mem, bucket: nat, stack: seq<nat>)
    requires StackOk(m, bucket, stack) && stack != []
    ensures var rest := stack[..|stack| - 1];
      && StackOk(m, bucket, rest)
      && (if rest == [] then Top(stack) == bucket
          else S.Parent(Top(rest)) == Top(stack) && 0 < Top(rest) < m.size)
  {
  }

  lemma DeliverCheck(hash: int -> int, m: Mem, th: Local, t: nat)
    requires TableInv(m) && P.Sized(m.list) && th.Busy? && ThreadInv(hash, m, th, t)
    requires th.pc.GetCell? && (th.goal.CheckSet? || th.goal.CheckDone?)
    ensures var (m', th', es) := Step(hash, m, th, t); m' == m && th'.Busy? && ThreadInv(hash, m, th', t) && es == []
  {
    PopStack(m, th.bucket, th.stack);
  }

  lemma DeliverElement(hash: int -> int, m: Mem, th: Local, t: nat)
    requires MemInv(hash, m) && th.Busy? && ThreadInv(hash, m, th, t)
    requires th.pc.GetCell? && th.goal.StartAt?
    ensures StepKept(hash, m, th, t)
    ensures P.KeySet(Step(hash, m, th, t).0.list) == P.KeySet(m.list) && Step(hash, m, th, t).2 == []
  {
    var key, v := ElementKey(hash, th.op.e), Cell(m, th.bucket);
    ElementBehind(hash, m, th);
    EnterCall(hash, m, th.op.kind, key, v, t);
    var (list', call) := L.Enter(m.list, th.op.kind, key, L.Copy, v, t);
    ElementStarted(hash, m, th, t, list', call);
  }

  lemma ElementStarted(hash: int -> int, m: Mem, th: Local, t: nat, list': L.Mem, call: L.Local)
    requires th.Busy? && ThreadInv(hash, m, th, t) && th.pc.GetCell? && th.goal.StartAt?
    requires CallOk(m.(list := list'), call, t, th.op.kind, ElementKey(hash, th.op.e))
    ensures ThreadInv(hash, m.(list := list'), th.(pc := RunList, call := call), t)
  {
  }

  lemma DummyGoal(hash: int -> int, m: Mem, th: Local, t: nat)
    requires th.Busy? && ThreadInv(hash, m, th, t) && th.pc.GetCell? && th.goal.StartParent?
    ensures th.stack != [] && 0 < Top(th.stack) < m.size && th.target == S.Parent(Top(th.stack)) && HasCell(m, th.target)
  {
  }

  lemma DeliverDummy(hash: int -> int, m: Mem, th: Local, t: nat)
    requires MemInv(hash, m) && th.Busy? && ThreadInv(hash, m, th, t)
    requires th.pc.GetCell? && th.goal.StartParent?
    ensures StepKept(hash, m, th, t)
    ensures P.KeySet(Step(hash, m, th, t).0.list) == P.KeySet(m.list) && Step(hash, m, th, t).2 == []
  {
    DummyGoal(hash, m, th, t);
    var b, v := Top(th.stack), Cell(m, th.target);
    ParentBehind(m, b);
    EnterCall(hash, m, L.AddAddr, BucketKey(b), v, t);
    var (list', call) := L.Enter(m.list, L.AddAddr, BucketKey(b), L.Copy, v, t);
    DummyStarted(hash, m, th, t, list', call);
    StepIsEnter(hash, m, th, t, list', call);
  }

  lemma StepIsEnter(hash: int -> int, m: Mem, th: Local, t: nat, list': L.Mem, call: L.Local)
    requires th.Busy? && th.pc.GetCell? && th.goal.StartParent?
    requires (list', call) == L.Enter(m.list, L.AddAddr, BucketKey(Top(th.stack)), L.Copy, Cell(m, th.target), t)
    ensures Step(hash, m, th, t) == (m.(list := list'), th.(pc := RunDummy, call := call), [])
  {
  }

  lemma DummyStarted(hash: int -> int, m: Mem, th: Local, t: nat, list': L.Mem, call: L.Local)
    requires th.Busy? && ThreadInv(hash, m, th, t) && th.pc.GetCell? && th.goal.StartParent?
    requires CallOk(m.(list := list'), call, t, L.AddAddr, BucketKey(Top(th.stack)))
    ensures ThreadInv(hash, m.(list := list'), th.(pc := RunDummy, call := call), t)
  {
  }

  lemma DeliverKeeps(hash: int -> int, m: Mem, th: Local, t: nat)
    requires MemInv(hash, m) && th.Busy? && ThreadInv(hash, m, th, t) && th.pc.GetCell?
    ensures StepKept(hash, m, th, t)
    ensures P.KeySet(Step(hash, m, th, t).0.list) == P.KeySet(m.list) && Step(hash, m, th, t).2 == []
  {
    if th.goal.StartAt? { DeliverElement(hash, m, th, t); }
    else if th.goal.StartParent? { DeliverDummy(hash, m, th, t); }
    else {
      if th.goal.TestBucket? || th.goal.NeedBucket? { DeliverTest(hash, m, th, t); }
      else if th.goal.CheckSet? || th.goal.CheckDone? { DeliverCheck(hash, m, th, t); }
      else { DeliverParent(hash, m, th, t); }
      NothingKeeps(hash, m, t);
    }
  }

  // ---------------------------------------------------------------- list calls of a thread

  predicate Running(pc: PC) { pc.RunList? || pc.RunDummy? || pc.RunCheck? }

  /** A list call in progress: the thread's step is the call's step. */
  lemma StepIsCall(hash: int -> int, m: Mem, th: Local, t: nat)
    requires th.Busy? && Running(th.pc) && !th.call.pc.Answer?
    ensures var (list', call', e) := L.Step(m.list, th.call);
      Step(hash, m, th, t) == (m.(list := list'), th.(call := call'), if th.pc.RunList? then Mark(t, th.op, e) else [])
  {
  }

  function CallKind(th: Local): L.Kind
    requires th.Busy?
  {
    if th.pc.RunList? then th.op.kind else if th.pc.RunDummy? then L.AddAddr else L.Search
  }

  function CallKey(hash: int -> int, th: Local): L.Key
    requires th.Busy?
  {
    if th.pc.RunList? then ElementKey(hash, th.op.e) else BucketKey(Top(th.stack))
  }

  lemma RunningCall(hash: int -> int, m: Mem, th: Local, t: nat)
    requires TableInv(m) && th.Busy? && ThreadInv(hash, m, th, t) && Running(th.pc)
    ensures CallOk(m, th.call, t, CallKind(th), CallKey(hash, th)) && GoodCall(hash, CallKind(th), CallKey(hash, th))
  {
    if th.pc.RunList? { KeysAreGood(hash, th.op.e, th.op.kind); }
    else { BucketsAreGood(hash, m, Top(th.stack), CallKind(th)); }
  }

  lemma AddGoesOn(hash: int -> int, m: Mem, th: Local, t: nat, list': L.Mem, call': L.Local)
    requires th.Busy? && ThreadInv(hash, m, th, t) && (th.pc.RunList? || th.pc.RunDummy?)
    requires CallOk(m.(list := list'), call', t, CallKind(th), CallKey(hash, th))
    ensures ThreadInv(hash, m.(list := list'), th.(call := call'), t)
  {
  }

  lemma CheckGoesOn(hash: int -> int, m: Mem, th: Local, t: nat, list': L.Mem, call': L.Local)
    requires th.Busy? && ThreadInv(hash, m, th, t) && th.pc.RunCheck? && IsBucket(list', Top(th.stack), th.addr)
    requires CallOk(m.(list := list'), call', t, CallKind(th), CallKey(hash, th)) && !call'.took && false !in call'.seen
    ensures ThreadInv(hash, m.(list := list'), th.(call := call'), t)
  {
  }

  lemma GoesOn(hash: int -> int, m: Mem, th: Local, t: nat, list': L.Mem, call': L.Local, e: L.Effect)
    requires th.Busy? && ThreadInv(hash, m, th, t) && Running(th.pc) && P.Rely(m.list, list', t)
    requires CallOk(m.(list := list'), call', t, CallKind(th), CallKey(hash, th)) && P.SameCall(th.call, call', e)
    requires th.pc.RunCheck? ==> !e.Takes? && (e.Sees? ==> e.ans)
    ensures ThreadInv(hash, m.(list := list'), th.(call := call'), t)
  {
    if th.pc.RunCheck? {
      BucketStable(m, m.(list := list'), t, Top(th.stack), th.addr);
      CheckGoesOn(hash, m, th, t, list', call');
    } else {
      AddGoesOn(hash, m, th, t, list', call');
    }
  }

  /** The dummy just added is found: it is in the list, and nobody removes it. */
  lemma CheckFinds(hash: int -> int, m: Mem, th: Local, t: nat, list': L.Mem, e: L.Effect)
    requires MemInv(hash, m) && th.Busy? && ThreadInv(hash, m, th, t) && th.pc.RunCheck?
    requires P.Agrees(m.list, th.call, list', e)
    ensures e.Sees? ==> e.ans
  {
    SizeBelow(m);
    OneDummy(hash, m.list, Top(th.stack), th.addr, th.addr);
  }

  lemma SearchTakesNothing(m: Mem, call: L.Local, t: nat, m': Mem, call': L.Local, e: L.Effect)
    requires P.LInv(m'.list, call', t) && call'.kind.Search? && P.SameCall(call, call', e)
    ensures !e.Takes?
  {
  }

  lemma RunKeepsCall(hash: int -> int, m: Mem, th: Local, t: nat)
    requires MemInv(hash, m) && th.Busy? && ThreadInv(hash, m, th, t)
    requires Running(th.pc) && !th.call.pc.Answer?
    ensures StepKept(hash, m, th, t) && CallKept(hash, m, th.call, t, CallKind(th), CallKey(hash, th))
  {
    RunningCall(hash, m, th, t);
    CallKeeps(hash, m, th.call, t, CallKind(th), CallKey(hash, th));
    StepIsCall(hash, m, th, t);
    var (list', call', e) := L.Step(m.list, th.call);
    if th.pc.RunCheck? {
      CheckFinds(hash, m, th, t, list', e);
      SearchTakesNothing(m, th.call, t, m.(list := list'), call', e);
    }
    GoesOn(hash, m, th, t, list', call', e);
  }

  /** What a list call that has answered tells its thread. */
  lemma AnswerMeans(m: Mem, call: L.Local, t: nat)
    requires P.LInv(m.list, call, t) && call.pc.Answer?
    ensures call.took || call.ans in call.seen
    ensures call.took ==> call.ans && !call.kind.Search?
    ensures call.kind.AddAddr? ==> P.Published(m.list, call.cur) && L.KeyOf(m.list, call.cur) == call.key
    ensures call.from.Copy? ==> P.Pinned(m.list, call)
    ensures call.ans && !call.took ==> call.kind.Search?
  {
  }

  lemma RunListEnds(hash: int -> int, m: Mem, th: Local, t: nat)
    requires th.Busy? && ThreadInv(hash, m, th, t) && (th.pc.RunList? || th.pc.RunCheck?) && th.call.pc.Answer?
    ensures var (m', th', es) := Step(hash, m, th, t); m' == m && es == [] && th'.Busy? && ThreadInv(hash, m, th', t)
  {
    AnswerMeans(m, th.call, t);
  }

  lemma RunDummyEnds(hash: int -> int, m: Mem, th: Local, t: nat)
    requires MemInv(hash, m) && th.Busy? && ThreadInv(hash, m, th, t) && th.pc.RunDummy? && th.call.pc.Answer?
    ensures StepKept(hash, m, th, t)
    ensures P.KeySet(Step(hash, m, th, t).0.list) == P.KeySet(m.list) && Step(hash, m, th, t).2 == []
  {
    var b, v := Top(th.stack), th.call.copy.p;
    AnswerMeans(m, th.call, t);
    EnterCall(hash, m, L.Search, BucketKey(b), v, t);
    var (list', call) := L.Enter(m.list, L.Search, BucketKey(b), L.Copy, v, t);
    CheckStarted(hash, m, th, t, list', call);
  }

  lemma CheckStarted(hash: int -> int, m: Mem, th: Local, t: nat, list': L.Mem, call: L.Local)
    requires th.Busy? && ThreadInv(hash, m, th, t) && th.pc.RunDummy? && P.Rely(m.list, list', t)
    requires IsBucket(m.list, Top(th.stack), th.call.cur) && !call.took && call.seen == {}
    requires CallOk(m.(list := list'), call, t, L.Search, BucketKey(Top(th.stack)))
    ensures ThreadInv(hash, m.(list := list'), th.(pc := RunCheck, addr := th.call.cur, call := call), t)
  {
    BucketStable(m, m.(list := list'), t, Top(th.stack), th.call.cur);
  }

  // ---------------------------------------------------------------- elements

  lemma StoredKey(hash: int -> int, list: L.Mem, k: L.Key)
    requires P.MemInv(list) && KeysInv(hash, list) && k in P.KeySet(list) && !Dummy(k)
    ensures k == ElementKey(hash, k.e)
  {
    var p :| p in list.chain && !L.Next(list, p).marked && L.KeyOf(list, p) == k;
    var i := L.IndexOf(list.chain, p);
    assert P.Published(list, p);
    assert NodeOk(hash, list, p);
  }

  lemma ElementIn(hash: int -> int, list: L.Mem, e: int)
    requires P.MemInv(list) && KeysInv(hash, list)
    ensures e in Elements(list) <==> ElementKey(hash, e) in P.KeySet(list)
  {
    KeysAreGood(hash, e, L.Search);
    if e in Elements(list) {
      var k :| k in P.KeySet(list) && !Dummy(k) && k.e == e;
      StoredKey(hash, list, k);
    }
    if ElementKey(hash, e) in P.KeySet(list) { assert ElementKey(hash, e).e == e; }
  }

  /** Keys of elements mirror the elements, whatever happens to dummies. */
  lemma SameElements(hash: int -> int, list: L.Mem, list': L.Mem)
    requires P.MemInv(list) && KeysInv(hash, list) && P.MemInv(list') && KeysInv(hash, list')
    requires forall e :: ElementKey(hash, e) in P.KeySet(list') <==> ElementKey(hash, e) in P.KeySet(list)
    ensures Elements(list') == Elements(list)
  {
    forall e ensures e in Elements(list') <==> e in Elements(list) {
      ElementIn(hash, list, e);
      ElementIn(hash, list', e);
    }
  }

  lemma OpOnElement(hash: int -> int, list: L.Mem, list': L.Mem, op: Op, e: int)
    requires P.MemInv(list) && KeysInv(hash, list) && P.MemInv(list') && KeysInv(hash, list')
    requires P.KeySet(list') == L.ListSpec(P.KeySet(list), op.kind, ElementKey(hash, op.e)).0
    ensures e in Elements(list') <==> e in SetSpec(Elements(list), op).0
  {
    ElementIn(hash, list, e);
    ElementIn(hash, list', e);
    assert ElementKey(hash, e) == ElementKey(hash, op.e) <==> e == op.e;
    OnePoint(Elements(list), P.KeySet(list), P.KeySet(list'), op, e, ElementKey(hash, op.e), ElementKey(hash, e));
  }

  lemma OnePoint(s: set<int>, keys: set<L.Key>, keys': set<L.Key>, op: Op, e: int, key: L.Key, k: L.Key)
    requires keys' == L.ListSpec(keys, op.kind, key).0 && (k == key <==> e == op.e) && (e in s <==> k in keys)
    ensures k in keys' <==> e in SetSpec(s, op).0
  {
  }

  lemma OpOnElements(hash: int -> int, list: L.Mem, list': L.Mem, op: Op)
    requires P.MemInv(list) && KeysInv(hash, list) && P.MemInv(list') && KeysInv(hash, list')
    requires P.KeySet(list') == L.ListSpec(P.KeySet(list), op.kind, ElementKey(hash, op.e)).0
    ensures Elements(list') == SetSpec(Elements(list), op).0
    ensures L.ListSpec(P.KeySet(list), op.kind, ElementKey(hash, op.e)).1 == SetSpec(Elements(list), op).1
  {
    ElementIn(hash, list, op.e);
    forall e ensures e in Elements(list') <==> e in SetSpec(Elements(list), op).0 {
      OpOnElement(hash, list, list', op, e);
    }
  }

  // ---------------------------------------------------------------- what a client sees

  predicate InMain(pc: PC) {
    pc.RunList? || Counting(pc)
  }

  function PhaseNow(th: Local): Phase<Op, bool> {
    if th.Idle? then Quiet
    else if InMain(th.pc) && th.call.took then Done(th.op, th.call.ans)
    else if InMain(th.pc) then Pending(th.op, th.call.seen)
    else Pending(th.op, {})
  }

  /** How far the count is behind the set because of this thread. */
  function Owed(th: Local): int {
    if th.Busy? && th.call.took && (th.pc.RunList? || th.pc.ReadOldSize? || th.pc.IncCount? || th.pc.DecCount?)
    then if th.op.kind.Remove? then -1 else 1
    else 0
  }

  /** A step of thread th that takes the set from s to s' and the count from c to c'. */
  predicate Explained(s: set<int>, c: int, th: Local, t: nat, es: seq<Event<Op, bool>>, s': set<int>, c': int, th': Local) {
    && c' + Owed(th') - |s'| == c + Owed(th) - |s|
    && if es == [] then s' == s && PhaseNow(th') == PhaseNow(th)
       else
         && |es| == 1 && es[0].t == t && Advance(PhaseNow(th), es[0]) == PhaseNow(th')
         && match es[0]
            case Commit(_, op, ret) => SetSpec(s, op) == (s', ret)
            case Observe(_, op, ret) => SetSpec(s, op) == (s, ret) && s' == s
            case _ => s' == s
  }

  ghost predicate Explains(m: Mem, th: Local, t: nat, es: seq<Event<Op, bool>>, m': Mem, th': Local) {
    Explained(Elements(m.list), m.count, th, t, es, Elements(m'.list), m'.count, th')
  }

  lemma TableRefines(hash: int -> int, m: Mem, th: Local, t: nat, s: set<int>)
    requires th.Busy? && (th.pc.ReadSize? || Setting(th.pc) || (Asking(th.pc) && !th.pc.GetCell?))
    ensures var (m', th', es) := Step(hash, m, th, t); m'.list == m.list && Explained(s, m.count, th, t, es, s, m'.count, th')
  {
  }

  lemma CountRefines(hash: int -> int, m: Mem, th: Local, t: nat, s: set<int>)
    requires th.Busy? && Counting(th.pc)
    requires th.pc.ReadOldSize? || th.pc.IncCount? ==> th.call.took && th.op.kind.Add?
    requires th.pc.DecCount? ==> th.call.took && th.op.kind.Remove?
    requires th.call.took || th.call.ans in th.call.seen
    ensures var (m', th', es) := Step(hash, m, th, t); m'.list == m.list && Explained(s, m.count, th, t, es, s, m'.count, th')
  {
  }

  lemma CountingTook(hash: int -> int, m: Mem, th: Local, t: nat)
    requires th.Busy? && ThreadInv(hash, m, th, t) && Counting(th.pc)
    ensures th.pc.ReadOldSize? || th.pc.IncCount? ==> th.call.took && th.op.kind.Add?
    ensures th.pc.DecCount? ==> th.call.took && th.op.kind.Remove?
    ensures th.call.took || th.call.ans in th.call.seen
  {
  }

  lemma EndRefines(hash: int -> int, m: Mem, th: Local, t: nat, s: set<int>)
    requires th.Busy? && Running(th.pc) && th.call.pc.Answer?
    requires th.pc.RunList? ==> (th.call.took ==> th.call.ans && !th.op.kind.Search?) && (th.call.ans && !th.call.took ==> th.op.kind.Search?)
    ensures var (m', th', es) := Step(hash, m, th, t); es == [] && Explained(s, m.count, th, t, es, s, m'.count, th')
  {
  }

  lemma DeliverElementRefines(hash: int -> int, m: Mem, th: Local, t: nat, s: set<int>)
    requires th.Busy? && th.pc.GetCell? && th.goal.StartAt?
    ensures var (m', th', es) := Step(hash, m, th, t); es == [] && Explained(s, m.count, th, t, es, s, m'.count, th')
  {
  }

  lemma DeliverOtherRefines(hash: int -> int, m: Mem, th: Local, t: nat, s: set<int>)
    requires th.Busy? && th.pc.GetCell? && !th.goal.StartAt?
    ensures var (m', th', es) := Step(hash, m, th, t);
      es == [] && m'.count == m.count && th'.Busy? && !InMain(th'.pc) && th'.op == th.op && Owed(th') == 0
  {
  }

  lemma DeliverRefines(hash: int -> int, m: Mem, th: Local, t: nat, s: set<int>)
    requires th.Busy? && th.pc.GetCell?
    ensures var (m', th', es) := Step(hash, m, th, t); es == [] && Explained(s, m.count, th, t, es, s, m'.count, th')
  {
    if th.goal.StartAt? { DeliverElementRefines(hash, m, th, t, s); } else { DeliverOtherRefines(hash, m, th, t, s); }
  }

  /** A step of the operation's own list call. */
  lemma EffectExplained(s: set<int>, c: int, th: Local, t: nat, s': set<int>, call': L.Local, e: L.Effect)
    requires th.Busy? && th.pc.RunList? && P.SameCall(th.call, call', e) && IsOp(th.op)
    requires e.Nothing? ==> s' == s
    requires e.Takes? ==> SetSpec(s, th.op) == (s', e.ans) && e.ans && !th.op.kind.Search?
    requires e.Sees? ==> SetSpec(s, th.op) == (s, e.ans) && s' == s
    ensures Explained(s, c, th, t, Mark(t, th.op, e), s', c, th.(call := call'))
  {
  }

  lemma DummyExplained(s: set<int>, c: int, th: Local, t: nat, call': L.Local)
    requires th.Busy? && (th.pc.RunDummy? || th.pc.RunCheck?)
    ensures Explained(s, c, th, t, [], s, c, th.(call := call'))
  {
  }

  lemma CallRefines(hash: int -> int, m: Mem, th: Local, t: nat, list': L.Mem, call': L.Local, e: L.Effect)
    requires MemInv(hash, m) && MemInv(hash, m.(list := list')) && th.Busy? && IsOp(th.op)
    requires Running(th.pc) && P.Agrees(m.list, th.call, list', e) && P.SameCall(th.call, call', e)
    requires th.call.kind == CallKind(th) && th.call.key == CallKey(hash, th)
    requires (call'.took ==> call'.ans && !call'.kind.Search?) && (!th.pc.RunList? ==> Top(th.stack) < m.size)
    ensures Explains(m, th, t, if th.pc.RunList? then Mark(t, th.op, e) else [], m.(list := list'), th.(call := call'))
  {
    if th.pc.RunList? {
      MainEffect(hash, m.list, th, list', e);
      EffectExplained(Elements(m.list), m.count, th, t, Elements(list'), call', e);
    } else {
      DummyEffect(hash, m, th, list', e);
      DummyExplained(Elements(m.list), m.count, th, t, call');
    }
  }

  lemma DummyEffect(hash: int -> int, m: Mem, th: Local, list': L.Mem, e: L.Effect)
    requires MemInv(hash, m) && MemInv(hash, m.(list := list')) && th.Busy?
    requires (th.pc.RunDummy? || th.pc.RunCheck?) && Top(th.stack) < m.size
    requires P.Agrees(m.list, th.call, list', e) && th.call.kind == CallKind(th) && th.call.key == BucketKey(Top(th.stack))
    ensures Elements(list') == Elements(m.list)
  {
    BucketsAreGood(hash, m, Top(th.stack), CallKind(th));
    forall x ensures ElementKey(hash, x) in P.KeySet(list') <==> ElementKey(hash, x) in P.KeySet(m.list) {
      KeysAreGood(hash, x, L.Search);
    }
    SameElements(hash, m.list, list');
  }

  lemma MainEffect(hash: int -> int, list: L.Mem, th: Local, list': L.Mem, e: L.Effect)
    requires P.MemInv(list) && KeysInv(hash, list) && P.MemInv(list') && KeysInv(hash, list')
    requires th.Busy? && P.Agrees(list, th.call, list', e)
    requires th.call.kind == th.op.kind && th.call.key == ElementKey(hash, th.op.e)
    ensures e.Nothing? ==> Elements(list') == Elements(list)
    ensures e.Takes? ==> SetSpec(Elements(list), th.op) == (Elements(list'), e.ans)
    ensures e.Sees? ==> SetSpec(Elements(list), th.op) == (Elements(list), e.ans) && Elements(list') == Elements(list)
  {
    match e {
      case Nothing => SameElements(hash, list, list');
      case Takes(_) => OpOnElements(hash, list, list', th.op);
      case Sees(_) =>
        OpOnElements(hash, list, list, th.op);
        SameElements(hash, list, list');
    }
  }

  lemma ElementsFollowKeys(list: L.Mem, list': L.Mem)
    requires P.KeySet(list') == P.KeySet(list)
    ensures Elements(list') == Elements(list)
  {
  }

  // ---------------------------------------------------------------- one step

  lemma RunningRefines(hash: int -> int, m: Mem, th: Local, t: nat)
    requires MemInv(hash, m) && th.Busy? && ThreadInv(hash, m, th, t)
    requires Running(th.pc) && !th.call.pc.Answer?
    ensures StepKept(hash, m, th, t)
    ensures var (m', th', es) := Step(hash, m, th, t); Explains(m, th, t, es, m', th')
  {
    RunKeepsCall(hash, m, th, t);
    StepIsCall(hash, m, th, t);
    var (list', call', e) := L.Step(m.list, th.call);
    CallFacts(hash, m, th, t);
    TookFacts(m.(list := list'), call', t);
    CallRefines(hash, m, th, t, list', call', e);
  }

  lemma CallFacts(hash: int -> int, m: Mem, th: Local, t: nat)
    requires th.Busy? && ThreadInv(hash, m, th, t) && Running(th.pc)
    ensures IsOp(th.op) && th.call.kind == CallKind(th) && th.call.key == CallKey(hash, th)
    ensures !th.pc.RunList? ==> Top(th.stack) < m.size
  {
  }

  lemma TookFacts(m: Mem, call: L.Local, t: nat)
    requires P.LInv(m.list, call, t)
    ensures call.took ==> call.ans && !call.kind.Search?
  {
  }

  lemma EndKeeps(hash: int -> int, m: Mem, th: Local, t: nat)
    requires MemInv(hash, m) && th.Busy? && ThreadInv(hash, m, th, t)
    requires Running(th.pc) && th.call.pc.Answer?
    ensures StepKept(hash, m, th, t)
    ensures var (m', th', es) := Step(hash, m, th, t); Explains(m, th, t, es, m', th')
  {
    AnswerMeans(m, th.call, t);
    CallFacts(hash, m, th, t);
    EndRefines(hash, m, th, t, Elements(m.list));
    if th.pc.RunDummy? { RunDummyEnds(hash, m, th, t); }
    else {
      RunListEnds(hash, m, th, t);
      NothingKeeps(hash, m, t);
    }
    ElementsFollowKeys(m.list, Step(hash, m, th, t).0.list);
  }

  lemma AskOrSetKeeps(hash: int -> int, m: Mem, th: Local, t: nat)
    requires HashOk(hash, m.limitBits) && MemInv(hash, m) && th.Busy? && ThreadInv(hash, m, th, t) && !Running(th.pc)
    ensures StepKept(hash, m, th, t)
    ensures var (m', th', es) := Step(hash, m, th, t); Explains(m, th, t, es, m', th')
  {
    var list := Elements(m.list);
    if th.pc.GetCell? {
      DeliverKeeps(hash, m, th, t);
      DeliverRefines(hash, m, th, t, list);
      ElementsFollowKeys(m.list, Step(hash, m, th, t).0.list);
    } else if Counting(th.pc) {
      CountKeeps(hash, m, th, t);
      CountingTook(hash, m, th, t);
      CountRefines(hash, m, th, t, list);
    } else {
      if th.pc.ReadSize? { ReadSizeKeeps(hash, m, th, t); }
      else if Setting(th.pc) { SetCellKeeps(hash, m, th, t); }
      else { AskKeeps(hash, m, th, t); }
      TableRefines(hash, m, th, t, list);
    }
  }

  /** Every step keeps the table and the list in order and is explained by the set of elements. */
  lemma StepRefinesSet(hash: int -> int, m: Mem, th: Local, t: nat)
    requires HashOk(hash, m.limitBits) && MemInv(hash, m) && th.Busy? && ThreadInv(hash, m, th, t)
    ensures StepKept(hash, m, th, t)
    ensures var (m', th', es) := Step(hash, m, th, t); Explains(m, th, t, es, m', th')
  {
    if !Running(th.pc) { AskOrSetKeeps(hash, m, th, t); }
    else if th.call.pc.Answer? { EndKeeps(hash, m, th, t); }
    else { RunningRefines(hash, m, th, t); }
  }
}
