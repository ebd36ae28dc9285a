/**
 A hash that is negative and no multiple of every size that the table can reach makes insert fail: the number that it
 hands to initialize_bucket is outside the table, and the buckets that are initialised on the way share a cell.
 */
module BadHash {
  import opened CppInts
  import opened HashSet
  import opened BucketChoice
  import opened SoloRun
  import opened HashSetProof
  import Results = HashSetResults
  import L = ListCore
  import S = SplitOrder

  // ---------------------------------------------------------------- the parents of the number

  /** The number whose bits q to q + c - 1 are ones. */
  function Ones(q: nat, c: nat): nat {
    if c == 0 then 0 else Ones(q, c - 1) + S.Pow2(q + c - 1)
  }

  lemma {:induction false} OnesIs(q: nat, c: nat)
    ensures Ones(q, c) + S.Pow2(q) == S.Pow2(q + c)
  {
    if c > 0 { OnesIs(q, c - 1); }
  }

  lemma {:induction false} HighestOfSum(x: nat, w: nat)
    requires x < S.Pow2(w)
    ensures S.Highest(x + S.Pow2(w)) == S.Pow2(w)
  {
    if w > 0 { HighestOfSum(x / 2, w - 1); }
  }

  /** initialize_bucket goes down one bit at a time. */
  lemma ParentOfOnes(q: nat, c: nat)
    requires c > 0
    ensures S.Parent(Ones(q, c)) == Ones(q, c - 1)
  {
    OnesIs(q, c - 1);
    HighestOfSum(Ones(q, c - 1), q + c - 1);
    S.ParentDropsHighest(Ones(q, c));
  }

  /** All of these numbers share a cell. */
  lemma {:induction false} OnesShareCell(q: nat, c: nat)
    requires c > 0
    ensures Ones(q, c) % S.Pow2(q + 1) == S.Pow2(q)
  {
    if c == 1 {
      BelowModulus(S.Pow2(q), S.Pow2(q + 1));
    } else {
      OnesShareCell(q, c - 1);
      DividesPower(q + 1, q + c - 1);
      OneMoreBit(q, c, Ones(q, c - 1), S.Pow2(q + c - 1), S.Pow2(q + 1));
    }
  }

  lemma OneMoreBit(q: nat, c: nat, x: nat, big: nat, size: nat)
    requires c > 0 && x == Ones(q, c - 1) && big == S.Pow2(q + c - 1) && size > 0 && big == (big / size) * size
    ensures Ones(q, c) % size == x % size
  {
    PlusMultiple(x, big, size);
  }

  lemma PlusMultiple(x: nat, big: nat, size: nat)
    requires size > 0 && big == (big / size) * size
    ensures (x + big) % size == x % size
  {
    AddMultiple(x, big / size, size);
  }

  lemma DividesPower(i: nat, j: nat)
    requires i <= j
    ensures S.Pow2(j) == (S.Pow2(j) / S.Pow2(i)) * S.Pow2(i)
  {
    Divides(i, j, 1);
  }

  /** The remainder of a multiple of p by 2p. */
  lemma HalfRemainder(a: nat, p: nat)
    requires p > 0 && a % p == 0 && a % (2 * p) != 0
    ensures a % (2 * p) == p
  {
    var k := a / p;
    assert a == p * k;
    Doubled(p, k / 2);
    if k % 2 == 0 { ModIs(a, 2 * p, k / 2, 0); } else { ModIs(a, 2 * p, k / 2, p); }
  }

  lemma Doubled(p: nat, j: nat)
    ensures p * (2 * j) == (2 * p) * j && p * (2 * j + 1) == (2 * p) * j + p
  {
  }

  /** The number that insert hands on, when the hash is a multiple of 2^q but not of the size 2^(q + 1). */
  lemma BadNumber(h: int, q: nat)
    requires IsInt(h) && h < 0 && q <= 30 && h % S.Pow2(q) == 0 && h % S.Pow2(q + 1) != 0
    ensures BucketFor(L.Add, h, S.Pow2(q + 1)) == Ones(q, 32 - q)
  {
    var p := S.Pow2(q);
    NumberOutside(L.Add, h, q + 1);
    NegativeMod(h, p);
    NegativeMod(h, 2 * p);
    HalfRemainder(-h, p);
    OnesIs(q, 32 - q);
    Sizes();
  }

  // ---------------------------------------------------------------- growing the table

  /** A table of 2^j buckets that holds nothing, with only the first bucket initialised. */
  predicate Base(m: Mem, k: nat, j: nat, load: real) {
    && m.size == S.Pow2(j) && m.bits == j && m.count == 0 && m.load == load && m.segmentSize == S.Pow2(k) && m.cells == map[0 := 1]
    && Sized(m.list) && m.list.next[1] == L.Link(L.NULL, false) && m.list.keys[1] == BucketKey(0)
  }

  /** The table with one element, whose node p is second in the list. */
  predicate Holding(m: Mem, k: nat, j: nat, load: real, p: L.Ptr, key: L.Key) {
    && m.size == S.Pow2(j) && m.bits == j && m.count == 1 && m.load == load && m.segmentSize == S.Pow2(k) && m.cells == map[0 := 1]
    && SecondIs(m.list, 1, p, key) && m.list.keys[1] == BucketKey(0)
  }

  lemma FirstKey(low: nat, e: int)
    requires low < S.Pow2(31)
    ensures L.Less(BucketKey(0), L.Key(S.RegularKey(low), e))
  {
    S.DummiesAreEven(0, low);
    S.RevZero(32);
  }

  predicate FirstCell(m: Mem, th: Local) { th.Busy? && th.bucket == 0 && th.stack == [] && m.size > 0 && Cell(m, 0) == 1 }

  lemma AskOn(hash: int -> int, t: nat, m: Mem, th: Local, goal: Goal)
    requires FirstCell(m, th) && (goal.TestBucket? || goal.NeedBucket?)
    ensures Leads(hash, t, m, Ask(th, 0, goal), Allocated(m, 0), Ask(th, 0, if goal.TestBucket? then NeedBucket else StartAt))
  {
    assert 0 % m.size == 0;
    GetBucket(hash, t, m, Ask(th, 0, goal), 0);
  }

  lemma AskStart(hash: int -> int, t: nat, m: Mem, th: Local)
    requires FirstCell(m, th)
    ensures var (l, call) := L.Enter(m.list, th.op.kind, ElementKey(hash, th.op.e), L.Copy, 1, t);
      Leads(hash, t, m, Ask(th, 0, StartAt), Allocated(m, 0).(list := l), th.(pc := RunList, goal := StartAt, target := 0, call := call))
  {
    assert 0 % m.size == 0;
    GetBucket(hash, t, m, Ask(th, 0, StartAt), 0);
  }

  /** Where a call whose bucket is 0 begins its list call. */
  function Started(hash: int -> int, t: nat, m: Mem, op: Op): (Mem, Local) {
    var (l, call) := L.Enter(m.list, op.kind, ElementKey(hash, op.e), L.Copy, 1, t);
    (Allocated(m, 0).(list := l), Busy(op, RunList, 0, StartAt, 0, call, [], L.NULL, 0, m.bits))
  }

  function Looking(op: Op, bits: nat, bucket: nat, stack: seq<nat>): (th: Local)
    ensures th.Busy?
  {
    Busy(op, ReadSize, bucket, TestBucket, 0, NoCall, stack, L.NULL, 0, bits)
  }

  lemma FirstStep(hash: int -> int, t: nat, m: Mem, op: Op)
    requires m.size > 0 && BucketFor(op.kind, hash(op.e), m.size) == 0
    ensures Leads(hash, t, m, Called(op), m, Ask(Looking(op, m.bits, 0, []), 0, TestBucket))
  {
    OneStep(hash, t, m, Called(op), m, Ask(Looking(op, m.bits, 0, []), 0, TestBucket));
  }

  lemma StartRuns(hash: int -> int, t: nat, m: Mem, op: Op)
    requires m.size > 0 && Cell(m, 0) == 1 && BucketFor(op.kind, hash(op.e), m.size) == 0
    ensures Leads(hash, t, m, Called(op), Started(hash, t, m, op).0, Started(hash, t, m, op).1)
  {
    var th := Looking(op, m.bits, 0, []);
    var m1 := Allocated(m, 0);
    assert Allocated(m1, 0) == m1;
    FirstStep(hash, t, m, op);
    AskOn(hash, t, m, th, TestBucket);
    AskOn(hash, t, m1, th, NeedBucket);
    AskStart(hash, t, m1, th);
    Then(hash, t, m, Called(op), m, Ask(th, 0, TestBucket), m1, Ask(th, 0, NeedBucket));
    Then(hash, t, m, Called(op), m1, Ask(th, 0, NeedBucket), m1, Ask(th, 0, StartAt));
    Then(hash, t, m, Called(op), m1, Ask(th, 0, StartAt), Started(hash, t, m, op).0, Started(hash, t, m, op).1);
  }

  /** ... and goes through it. */
  lemma OpRuns(hash: int -> int, t: nat, m: Mem, op: Op, m1: Mem, th1: Local, l: L.Mem, call: L.Local)
    requires m.size > 0 && Cell(m, 0) == 1 && BucketFor(op.kind, hash(op.e), m.size) == 0
    requires (m1, th1) == Started(hash, t, m, op) && CallLeads(m1.list, th1.call, l, call)
    ensures Leads(hash, t, m, Called(op), m1.(list := l), th1.(call := call))
  {
    StartRuns(hash, t, m, op);
    CallRuns(hash, t, m1, th1, l, call);
    Then(hash, t, m, Called(op), m1, th1, m1.(list := l), th1.(call := call));
  }

  /** Any count exceeds a negative load factor. */
  lemma CountIsFull(hash: int -> int, t: nat, m: Mem, th: Local)
    requires th.Busy? && th.pc.ReadCount? && 0 < th.oldSize < MaxSize(m.segmentSize) && m.count >= 0 && m.load < 0.0
    ensures Steps(hash, t, m, th, m, th.(pc := Grow))
  {
    assert Quotient(m.count, th.oldSize) >= 0;
  }

  /** A thread that is about to double a table of this size. */
  predicate AboutToGrow(th: Local, size: nat) { th.Busy? && th.pc.Grow? && th.oldSize == size }

  lemma CountRuns(hash: int -> int, t: nat, m: Mem, th: Local) returns (th': Local)
    requires th.Busy? && th.pc.RunList? && th.call.pc.Answer? && th.call.ans && th.op.kind.Add?
    requires 0 < m.size < MaxSize(m.segmentSize) && m.count >= 0 && m.load < 0.0
    ensures AboutToGrow(th', m.size) && Leads(hash, t, m, th, m.(count := m.count + 1), th')
  {
    var th1 := th.(pc := ReadOldSize);
    var th2 := th.(pc := IncCount, oldSize := m.size);
    var m3, th3 := m.(count := m.count + 1), th2.(pc := ReadCount);
    OneStep(hash, t, m, th, m, th1);
    ThenStep(hash, t, m, th, m, th1, m, th2);
    ThenStep(hash, t, m, th, m, th2, m3, th3);
    CountIsFull(hash, t, m3, th3);
    th' := th3.(pc := Grow);
    ThenStep(hash, t, m, th, m3, th3, m3, th');
  }

  lemma GrowRuns(hash: int -> int, t: nat, m: Mem, th: Local)
    requires AboutToGrow(th, m.size)
    ensures Leads(hash, t, m, th, m.(size := 2 * m.size, bits := m.bits + 1), Idle)
  {
    var m' := m.(size := 2 * m.size, bits := m.bits + 1);
    OneStep(hash, t, m, th, m', th.(pc := Leave));
    ThenStep(hash, t, m, th, m', th.(pc := Leave), m', Idle);
  }

  lemma EndOfRemove(hash: int -> int, t: nat, m: Mem, th: Local) returns (m': Mem)
    requires th.Busy? && th.pc.RunList? && th.call.pc.Answer? && th.call.ans && th.op.kind.Remove?
    ensures Leads(hash, t, m, th, m', Idle) && m' == m.(count := m.count - 1)
  {
    m' := m.(count := m.count - 1);
    OneStep(hash, t, m, th, m, th.(pc := DecCount));
    ThenStep(hash, t, m, th, m, th.(pc := DecCount), m', th.(pc := Leave));
    ThenStep(hash, t, m, th, m', th.(pc := Leave), m', Idle);
  }

  lemma InsertHolds(m: Mem, l: L.Mem, k: nat, j: nat, load: real, key: L.Key)
    requires Base(m, k, j, load) && Appended(m.list, l, 1, key)
    ensures var m' := Allocated(m, 0).(list := l); Holding(m'.(count := m'.count + 1), k, j, load, |m.list.keys|, key)
  {
  }

  lemma AddAnswers(hash: int -> int, t: nat, m: Mem, e: int, k: nat, j: nat, load: real) returns (l: L.Mem, call: L.Local)
    requires Base(m, k, j, load)
    ensures var (m1, th1) := Started(hash, t, m, Op(L.Add, e)); CallLeads(m1.list, th1.call, l, call)
    ensures Added(m.list, 1, ElementKey(hash, e), l, call)
  {
    FirstKey(S.Low31(hash(e)), e);
    l, call := AppendRuns(m.list, L.Add, ElementKey(hash, e), 1, t);
  }

  /** insert, as far as it is about to double the table. */
  lemma InsertRuns(hash: int -> int, t: nat, m: Mem, e: int, k: nat, j: nat, load: real) returns (m': Mem, th': Local)
    requires Base(m, k, j, load) && load < 0.0 && BucketFor(L.Add, hash(e), m.size) == 0 && S.Pow2(j) < MaxSize(S.Pow2(k))
    ensures Leads(hash, t, m, Called(Op(L.Add, e)), m', th') && AboutToGrow(th', S.Pow2(j))
    ensures Holding(m', k, j, load, |m.list.keys|, ElementKey(hash, e))
  {
    var op := Op(L.Add, e);
    var l2, c2 := AddAnswers(hash, t, m, e, k, j, load);
    var (m1, th1) := Started(hash, t, m, op);
    OpRuns(hash, t, m, op, m1, th1, l2, c2);
    InsertHolds(m, l2, k, j, load, ElementKey(hash, e));
    m', th' := InsertCounts(hash, t, m, m1.(list := l2), th1.(call := c2), k, j, load);
    Then(hash, t, m, Called(op), m1.(list := l2), th1.(call := c2), m', th');
  }

  lemma InsertCounts(hash: int -> int, t: nat, m: Mem, m2: Mem, th2: Local, k: nat, j: nat, load: real) returns (m': Mem, th': Local)
    requires Base(m, k, j, load) && load < 0.0 && m2 == Allocated(m, 0).(list := m2.list) && S.Pow2(j) < MaxSize(S.Pow2(k))
    requires th2.Busy? && th2.pc.RunList? && th2.call.pc.Answer? && th2.call.ans && th2.op.kind.Add?
    ensures Leads(hash, t, m2, th2, m', th') && AboutToGrow(th', S.Pow2(j)) && m' == m2.(count := m2.count + 1)
  {
    m' := m2.(count := m2.count + 1);
    th' := CountRuns(hash, t, m2, th2);
  }

  lemma RemoveLeaves(m: Mem, l: L.Mem, k: nat, j: nat, load: real, p: L.Ptr, key: L.Key)
    requires Holding(m, k, j, load, p, key) && l.keys == m.list.keys && Sized(l) && l.next[1] == L.Link(L.NULL, false)
    ensures var m' := Allocated(m, 0).(list := l); Base(m'.(count := m'.count - 1), k, j, load)
  {
  }

  lemma RemoveAnswers(hash: int -> int, t: nat, m: Mem, e: int, k: nat, j: nat, load: real, p: L.Ptr) returns (l: L.Mem, call: L.Local)
    requires Holding(m, k, j, load, p, ElementKey(hash, e))
    ensures var (m1, th1) := Started(hash, t, m, Op(L.Remove, e)); CallLeads(m1.list, th1.call, l, call)
    ensures call.pc.Answer? && call.ans && l.keys == m.list.keys && Sized(l) && l.next[1] == L.Link(L.NULL, false)
  {
    l, call := RemoveRuns(m.list, ElementKey(hash, e), 1, p, t);
  }

  /** remove leaves the table empty again. */
  lemma RemoveEmpties(hash: int -> int, t: nat, m: Mem, e: int, k: nat, j: nat, load: real, p: L.Ptr) returns (m': Mem)
    requires Holding(m, k, j, load, p, ElementKey(hash, e)) && BucketFor(L.Remove, hash(e), m.size) == 0
    ensures Leads(hash, t, m, Called(Op(L.Remove, e)), m', Idle) && Base(m', k, j, load)
  {
    var op := Op(L.Remove, e);
    var l2, c2 := RemoveAnswers(hash, t, m, e, k, j, load, p);
    var (m1, th1) := Started(hash, t, m, op);
    OpRuns(hash, t, m, op, m1, th1, l2, c2);
    RemoveLeaves(m, l2, k, j, load, p, ElementKey(hash, e));
    m' := EndOfRemove(hash, t, m1.(list := l2), th1.(call := c2));
    Then(hash, t, m, Called(op), m1.(list := l2), th1.(call := c2), m', Idle);
  }

  // ---------------------------------------------------------------- initialize_bucket

  /** A thread in initialize_bucket whose innermost bucket is b; its parent has the cell c, which points to d. */
  predicate Initialising(m: Mem, th: Local, b: nat, c: nat, d: L.Ptr) {
    && th.Busy? && th.stack != [] && Top(th.stack) == b && m.size > 0 && S.Parent(b) % m.size == c
    && Cell(m, c) == d && LastBefore(m.list, d, BucketKey(b))
  }

  lemma NeedParentRuns(hash: int -> int, t: nat, m: Mem, th: Local, b: nat, c: nat, d: L.Ptr)
    requires Initialising(m, th, b, c, d)
    ensures Leads(hash, t, m, Ask(th, S.Parent(b), NeedParent), Allocated(m, c), Ask(th, S.Parent(b), StartParent))
  {
    GetBucket(hash, t, m, Ask(th, S.Parent(b), NeedParent), c);
  }

  function DummyCall(t: nat, m: Mem, th: Local, b: nat, c: nat, d: L.Ptr): (Mem, Local)
    requires th.Busy?
  {
    var (l, call) := L.Enter(m.list, L.AddAddr, BucketKey(b), L.Copy, d, t);
    (Allocated(m, c).(list := l), th.(pc := RunDummy, goal := StartParent, target := c, call := call))
  }

  lemma StartParentRuns(hash: int -> int, t: nat, m: Mem, th: Local, b: nat, c: nat, d: L.Ptr)
    requires Initialising(m, th, b, c, d)
    ensures Leads(hash, t, m, Ask(th, S.Parent(b), StartParent), DummyCall(t, m, th, b, c, d).0, DummyCall(t, m, th, b, c, d).1)
  {
    GetBucket(hash, t, m, Ask(th, S.Parent(b), StartParent), c);
  }

  lemma DummyAnswers(t: nat, m: Mem, th: Local, b: nat, c: nat, d: L.Ptr) returns (l: L.Mem, call: L.Local)
    requires Initialising(m, th, b, c, d)
    ensures var (m1, th1) := DummyCall(t, m, th, b, c, d); CallLeads(m1.list, th1.call, l, call)
    ensures Added(m.list, d, BucketKey(b), l, call)
  {
    l, call := AppendRuns(m.list, L.AddAddr, BucketKey(b), d, t);
  }

  function CheckCall(t: nat, m: Mem, th: Local, b: nat): L.Local
    requires th.Busy?
  {
    L.Enter(m.list, L.Search, BucketKey(b), L.Copy, th.call.copy.p, t).1
  }

  lemma CheckBegins(hash: int -> int, t: nat, m: Mem, th: Local, b: nat)
    requires th.Busy? && th.pc.RunDummy? && th.call.pc.Answer? && Top(th.stack) == b
    ensures Steps(hash, t, m, th, m, th.(pc := RunCheck, addr := th.call.cur, call := CheckCall(t, m, th, b)))
  {
    assert m.(list := m.list) == m;
  }

  /** The search that checks that the dummy is there. */
  lemma CheckRuns(hash: int -> int, t: nat, m: Mem, th: Local, b: nat, d: L.Ptr, p: L.Ptr) returns (th': Local)
    requires th.Busy? && th.pc.RunCheck? && SecondIs(m.list, d, p, BucketKey(b))
    requires th.call == L.Enter(m.list, L.Search, BucketKey(b), L.Copy, d, t).1
    ensures Leads(hash, t, m, th, m, th') && th'.Busy? && th' == th.(pc := SetSegment, call := th'.call)
  {
    var call := SearchRuns(m.list, BucketKey(b), d, p, t);
    CallRuns(hash, t, m, th, m.list, call);
    assert m.(list := m.list) == m;
    th' := th.(pc := SetSegment, call := call);
    ThenStep(hash, t, m, th, m, th.(call := call), m, th');
  }

  /** The dummy of b is made, behind d, as node p. */
  lemma MakeDummy(hash: int -> int, t: nat, m: Mem, th: Local, b: nat, c: nat, d: L.Ptr) returns (m': Mem, th': Local)
    requires Initialising(m, th, b, c, d)
    ensures Leads(hash, t, m, Ask(th, S.Parent(b), NeedParent), m', th')
    ensures m' == Allocated(m, c).(list := m'.list) && Appended(m.list, m'.list, d, BucketKey(b))
    ensures th'.Busy? && th'.pc.SetSegment? && th'.stack == th.stack && th'.addr == |m.list.keys|
  {
    var start := Ask(th, S.Parent(b), NeedParent);
    var m0 := Allocated(m, c);
    assert Allocated(m0, c) == m0;
    NeedParentRuns(hash, t, m, th, b, c, d);
    StartParentRuns(hash, t, m0, th, b, c, d);
    var (m1, th1) := DummyCall(t, m0, th, b, c, d);
    Then(hash, t, m, start, m0, Ask(th, S.Parent(b), StartParent), m1, th1);
    var l, call := DummyAnswers(t, m0, th, b, c, d);
    CallRuns(hash, t, m1, th1, l, call);
    m' := m1.(list := l);
    Then(hash, t, m, start, m1, th1, m', th1.(call := call));
    th' := Checked(hash, t, m', th1.(call := call), b, d, |m.list.keys|);
    Then(hash, t, m, start, m', th1.(call := call), m', th');
  }

  lemma Checked(hash: int -> int, t: nat, m: Mem, th: Local, b: nat, d: L.Ptr, p: L.Ptr) returns (th': Local)
    requires th.Busy? && th.pc.RunDummy? && th.call.pc.Answer? && Top(th.stack) == b && th.call.copy.p == d && th.call.cur == p
    requires SecondIs(m.list, d, p, BucketKey(b))
    ensures Leads(hash, t, m, th, m, th') && th'.Busy? && th'.pc.SetSegment? && th'.stack == th.stack && th'.addr == p
  {
    CheckBegins(hash, t, m, th, b);
    var th2 := th.(pc := RunCheck, addr := p, call := CheckCall(t, m, th, b));
    OneStep(hash, t, m, th, m, th2);
    th' := CheckRuns(hash, t, m, th2, b, d, p);
    Then(hash, t, m, th, m, th2, m, th');
  }

  /** set_bucket, up to the check that follows it. */
  function Stored(m: Mem, th: Local, b: nat): Mem
    requires th.Busy?
  {
    Allocated(m, b).(cells := m.cells[b := th.addr])
  }

  lemma StoreRuns(hash: int -> int, t: nat, m: Mem, th: Local, b: nat)
    requires th.Busy? && th.pc.SetSegment? && Top(th.stack) == b && Segment(m, b) < ARRAY_SIZE && Cell(m, b) == L.NULL
    ensures Leads(hash, t, m, th, Stored(m, th, b), Ask(th, b, CheckSet))
  {
    var m1 := Allocated(m, b);
    if Segment(m, b) in m.segments {
      assert m1 == m;
      OneStep(hash, t, m, th, m, th.(pc := SetCell));
    } else {
      OneStep(hash, t, m, th, m, th.(pc := SetNewSegment));
      ThenStep(hash, t, m, th, m, th.(pc := SetNewSegment), m1, th.(pc := SetCell));
    }
    ThenStep(hash, t, m, th, m1, th.(pc := SetCell), Stored(m, th, b), Ask(th, b, CheckSet));
  }

  /** The innermost bucket, whose number is below the size, is set, and initialize_bucket goes on with the next. */
  lemma StoreGoesOn(hash: int -> int, t: nat, m: Mem, th: Local, b: nat) returns (m': Mem, th': Local)
    requires th.Busy? && th.pc.SetSegment? && |th.stack| > 1 && Top(th.stack) == b && Segment(m, b) < ARRAY_SIZE
    requires Cell(m, b) == L.NULL && b < m.size && th.addr != L.NULL
    ensures th'.Busy? && th'.stack == th.stack[..|th.stack| - 1] && m' == Stored(m, th, b)
    ensures Leads(hash, t, m, th, m', Ask(th', S.Parent(Top(th'.stack)), NeedParent))
  {
    m', th' := Stored(m, th, b), th.(stack := th.stack[..|th.stack| - 1]);
    StoreRuns(hash, t, m, th, b);
    BelowModulus(b, m.size);
    assert Allocated(m', b) == m';
    GetBucket(hash, t, m', Ask(th, b, CheckSet), b);
    Then(hash, t, m, th, m', Ask(th, b, CheckSet), m', Ask(th, b, CheckDone));
    GetBucket(hash, t, m', Ask(th, b, CheckDone), b);
    Then(hash, t, m, th, m', Ask(th, b, CheckDone), m', Ask(th', S.Parent(Top(th'.stack)), NeedParent));
  }

  /** A bucket whose number is not below the size is set in a cell that is not read again, or not there. */
  lemma StoreFails(hash: int -> int, t: nat, m: Mem, th: Local, b: nat, c: nat) returns (m': Mem, th': Local)
    requires th.Busy? && th.pc.SetSegment? && Top(th.stack) == b && Cell(m, b) == L.NULL
    requires m.size > 0 && b % m.size == c != b && Cell(m, c) != th.addr
    ensures Leads(hash, t, m, th, m', th') && th'.Busy? && th'.pc.Crash?
  {
    if Segment(m, b) >= ARRAY_SIZE {
      m', th' := m, th.(pc := Crash);
      OneStep(hash, t, m, th, m', th');
    } else {
      var m1 := Stored(m, th, b);
      StoreRuns(hash, t, m, th, b);
      GetBucket(hash, t, m1, Ask(th, b, CheckSet), c);
      m', th' := Allocated(m1, c), Ask(th, b, CheckSet).(pc := Crash, target := c);
      Then(hash, t, m, th, m1, Ask(th, b, CheckSet), m', th');
    }
  }

  // ---------------------------------------------------------------- the failing insert

  /** Memory that differs in the segments allocated only. */
  predicate MoreSegments(m: Mem, m': Mem) { m' == m.(segments := m'.segments) }

  predicate AtParent(m: Mem, th: Local, q: nat, c: nat) {
    c > 0 && th.Busy? && th.stack != [] && Top(th.stack) == Ones(q, c) && m.size == S.Pow2(q + 1) && m.cells == map[0 := 1]
  }

  lemma ParentPushed(hash: int -> int, t: nat, m: Mem, th: Local, q: nat, c: nat)
    requires AtParent(m, th, q, c) && c > 1
    ensures Leads(hash, t, m, Ask(th, Ones(q, c - 1), TestParent),
                  Allocated(m, S.Pow2(q)), Ask(th.(stack := th.stack + [Ones(q, c - 1)]), Ones(q, c - 2), TestParent))
  {
    ParentOfOnes(q, c);
    ParentOfOnes(q, c - 1);
    OnesShareCell(q, c - 1);
    GetBucket(hash, t, m, Ask(th, Ones(q, c - 1), TestParent), S.Pow2(q));
  }

  lemma FirstReached(hash: int -> int, t: nat, m: Mem, th: Local, q: nat)
    requires AtParent(m, th, q, 1)
    ensures Leads(hash, t, m, Ask(th, 0, TestParent), Allocated(m, 0), Ask(th, 0, NeedParent))
  {
    ParentOfOnes(q, 1);
    assert 0 % m.size == 0;
    GetBucket(hash, t, m, Ask(th, 0, TestParent), 0);
  }

  /** Looking for a parent that is initialised, initialize_bucket pushes the parents of the number. */
  lemma {:induction false} Descend(hash: int -> int, t: nat, m: Mem, th: Local, q: nat, c: nat) returns (m': Mem, th': Local)
    requires AtParent(m, th, q, c)
    ensures th'.Busy? && MoreSegments(m, m') && Leads(hash, t, m, Ask(th, Ones(q, c - 1), TestParent), m', Ask(th', 0, NeedParent))
    ensures th'.stack != [] && Top(th'.stack) == Ones(q, 1) && (c == 1 ==> th'.stack == th.stack)
    ensures c > 1 ==> |th'.stack| > 1 && Top(th'.stack[..|th'.stack| - 1]) == Ones(q, 2)
    decreases c
  {
    if c == 1 {
      m', th' := Allocated(m, 0), th;
      FirstReached(hash, t, m, th, q);
    } else {
      var m1, th1 := Allocated(m, S.Pow2(q)), th.(stack := th.stack + [Ones(q, c - 1)]);
      ParentPushed(hash, t, m, th, q, c);
      m', th' := Descend(hash, t, m1, th1, q, c - 1);
      Then(hash, t, m, Ask(th, Ones(q, c - 1), TestParent), m1, Ask(th1, Ones(q, c - 2), TestParent), m', Ask(th', 0, NeedParent));
      assert th1.stack[..|th1.stack| - 1] == th.stack;
    }
  }

  /** In a call whose number is Ones(q, c), the first test finds the bucket not initialised. */
  lemma TestFails(hash: int -> int, t: nat, m: Mem, op: Op, q: nat, c: nat)
    requires m.size == S.Pow2(q + 1) && m.cells == map[0 := 1] && c > 0 && BucketFor(op.kind, hash(op.e), m.size) == Ones(q, c)
    ensures Leads(hash, t, m, Called(op), Allocated(m, S.Pow2(q)), Ask(Looking(op, m.bits, Ones(q, c), [Ones(q, c)]), Ones(q, c - 1), TestParent))
  {
    var th, th' := Looking(op, m.bits, Ones(q, c), []), Looking(op, m.bits, Ones(q, c), [Ones(q, c)]);
    OneStep(hash, t, m, Called(op), m, Ask(th, Ones(q, c), TestBucket));
    OnesShareCell(q, c);
    ParentOfOnes(q, c);
    GetBucket(hash, t, m, Ask(th, Ones(q, c), TestBucket), S.Pow2(q));
    Then(hash, t, m, Called(op), m, Ask(th, Ones(q, c), TestBucket), Allocated(m, S.Pow2(q)), Ask(th', Ones(q, c - 1), TestParent));
  }

  lemma OnesAscend(q: nat)
    requires q <= 29
    ensures 0 < Ones(q, 1) == S.Pow2(q) < S.Pow2(q + 1) < Ones(q, 2) < S.Pow2(31)
    ensures L.Less(BucketKey(0), BucketKey(Ones(q, 1))) && L.Less(BucketKey(Ones(q, 1)), BucketKey(Ones(q, 2)))
  {
    OnesIs(q, 2);
    S.Pow2Grows(q + 2, 31);
    S.Pow2Grows(31, 32);
    ParentOfOnes(q, 1);
    ParentOfOnes(q, 2);
    S.ParentPrecedes(Ones(q, 1), 32);
    S.ParentPrecedes(Ones(q, 2), 32);
  }

  /** Insert, from a table with one bucket only, when the number is Ones(q, c): the second bucket that it initialises
      reads the cell of the first. */
  lemma InsertFails(hash: int -> int, t: nat, m: Mem, e: int, k: nat, q: nat, c: nat, load: real) returns (m': Mem, th': Local)
    requires Base(m, k, q + 1, load) && q <= 29 && c > 1 && BucketFor(L.Add, hash(e), m.size) == Ones(q, c)
    requires S.Pow2(q + 1) <= ARRAY_SIZE * S.Pow2(k)
    ensures Leads(hash, t, m, Called(Op(L.Add, e)), m', th') && th'.Busy? && th'.pc.Crash?
  {
    var op := Op(L.Add, e);
    TestFails(hash, t, m, op, q, c);
    var m0, th0 := Allocated(m, S.Pow2(q)), Looking(op, m.bits, Ones(q, c), [Ones(q, c)]);
    var m1, th1 := Descend(hash, t, m0, th0, q, c);
    Then(hash, t, m, Called(op), m0, Ask(th0, Ones(q, c - 1), TestParent), m1, Ask(th1, 0, NeedParent));
    var m2, th2 := FirstDummy(hash, t, m, m1, th1, k, q, load);
    Then(hash, t, m, Called(op), m1, Ask(th1, 0, NeedParent), m2, Ask(th2, S.Pow2(q), NeedParent));
    m', th' := SecondDummy(hash, t, m2, th2, q, |m.list.keys|);
    Then(hash, t, m, Called(op), m2, Ask(th2, S.Pow2(q), NeedParent), m', th');
  }

  /** Memory when the lowest bucket of the number has been initialised with node p. */
  predicate FirstMade(m: Mem, q: nat, p: L.Ptr) {
    && m.size == S.Pow2(q + 1) && m.cells == map[0 := 1, S.Pow2(q) := p]
    && Sized(m.list) && 0 < p < |m.list.next| && m.list.next[p] == L.Link(L.NULL, false) && m.list.keys[p] == BucketKey(S.Pow2(q))
  }

  lemma FirstDummy(hash: int -> int, t: nat, m: Mem, m1: Mem, th1: Local, k: nat, q: nat, load: real) returns (m2: Mem, th2: Local)
    requires Base(m, k, q + 1, load) && MoreSegments(m, m1) && q <= 29 && S.Pow2(q + 1) <= ARRAY_SIZE * S.Pow2(k)
    requires th1.Busy? && |th1.stack| > 1 && Top(th1.stack) == Ones(q, 1) && Top(th1.stack[..|th1.stack| - 1]) == Ones(q, 2)
    ensures th2.Busy? && Leads(hash, t, m1, Ask(th1, 0, NeedParent), m2, Ask(th2, S.Pow2(q), NeedParent))
    ensures th2.stack != [] && Top(th2.stack) == Ones(q, 2) && FirstMade(m2, q, |m.list.keys|)
  {
    var b := Ones(q, 1);
    OnesAscend(q);
    ParentOfOnes(q, 1);
    ParentOfOnes(q, 2);
    assert 0 % m1.size == 0;
    var m', th' := MakeDummy(hash, t, m1, th1, b, 0, 1);
    InArray(b, S.Pow2(k));
    m2, th2 := StoreGoesOn(hash, t, m', th', b);
    Then(hash, t, m1, Ask(th1, 0, NeedParent), m', th', m2, Ask(th2, S.Pow2(q), NeedParent));
  }

  lemma InArray(b: nat, size: nat)
    requires b < ARRAY_SIZE * size
    ensures size > 0 && b / size < ARRAY_SIZE
  {
    SegmentInBounds(size, b);
  }

  lemma SecondDummy(hash: int -> int, t: nat, m: Mem, th: Local, q: nat, p: L.Ptr) returns (m': Mem, th': Local)
    requires FirstMade(m, q, p) && q <= 29 && th.Busy? && th.stack != [] && Top(th.stack) == Ones(q, 2)
    ensures Leads(hash, t, m, Ask(th, S.Pow2(q), NeedParent), m', th') && th'.Busy? && th'.pc.Crash?
  {
    var b, c := Ones(q, 2), S.Pow2(q);
    OnesAscend(q);
    ParentOfOnes(q, 2);
    OnesShareCell(q, 2);
    BelowModulus(c, m.size);
    var m1, th1 := MakeDummy(hash, t, m, th, b, c, p);
    m', th' := StoreFails(hash, t, m1, th1, b, c);
    Then(hash, t, m, Ask(th, c, NeedParent), m1, th1, m', th');
  }

  // ---------------------------------------------------------------- any bad hash

  predicate Crashed(th: Local) { th.Busy? && th.pc.Crash? }

  lemma BucketZero(kind: L.Kind, h: int, size: nat)
    requires IsInt(h) && h < 0 && 0 < size <= 0x8000_0000 && h % size == 0 && !kind.Search?
    ensures BucketFor(kind, h, size) == 0
  {
    BucketIs(kind, h, size);
    NegativeMod(h, size);
  }

  /** Two idle threads. */
  predicate Quiet(s: State) { |s.threads| == 2 && s.threads[0].Idle? && s.threads[1].Idle? }

  /** Before thread 0 doubles the table for the element that it has inserted, thread 1 removes the element again. */
  lemma Round(hash: int -> int, s: State, e: int, k: nat, j: nat, load: real) returns (sched: seq<Action>)
    requires Quiet(s) && Base(s.mem, k, j, load) && load < 0.0 && j <= 30 && IsInt(hash(e)) && hash(e) < 0
    requires hash(e) % S.Pow2(j) == 0 && S.Pow2(j) < MaxSize(S.Pow2(k))
    ensures var s' := Exec(hash, s, sched); Quiet(s') && Base(s'.mem, k, j + 1, load)
  {
    var d := SizeDivides(j);
    BucketZero(L.Add, hash(e), S.Pow2(j));
    BucketZero(L.Remove, hash(e), S.Pow2(j));
    var m1, th1 := InsertRuns(hash, 0, s.mem, e, k, j, load);
    var a := CallRun(hash, 0, s, Op(L.Add, e), m1, th1);
    var s1 := Exec(hash, s, a);
    var m2 := RemoveEmpties(hash, 1, m1, e, k, j, load, |s.mem.list.keys|);
    var b := CallRun(hash, 1, s1, Op(L.Remove, e), m2, Idle);
    var s2 := Exec(hash, s1, b);
    GrowRuns(hash, 0, m2, th1);
    var c := RunOn(hash, 0, s2, m2.(size := 2 * m2.size, bits := m2.bits + 1), Idle);
    ExecAppends(hash, s, a, b);
    ExecAppends(hash, s, a + b, c);
    sched := a + b + c;
  }

  /** As long as the hash is a multiple of the size, the table can be made to grow with nothing in it. */
  lemma {:induction false} GrowTo(hash: int -> int, s: State, e: int, k: nat, j: nat, load: real) returns (sched: seq<Action>)
    requires Quiet(s) && Base(s.mem, k, 1, load) && load < 0.0 && 1 <= j <= 31 && IsInt(hash(e)) && hash(e) < 0
    requires j > 1 ==> hash(e) % S.Pow2(j - 1) == 0 && S.Pow2(j) <= MaxSize(S.Pow2(k))
    ensures var s' := Exec(hash, s, sched); Quiet(s') && Base(s'.mem, k, j, load)
    decreases j
  {
    sched := [];
    if j > 1 {
      if j > 2 { MultipleOf(hash(e), j - 2, j - 1); }
      var before := GrowTo(hash, s, e, k, j - 1, load);
      var more := Round(hash, Exec(hash, s, before), e, k, j - 1, load);
      ExecAppends(hash, s, before, more);
      sched := before + more;
    }
  }

  /** From a table of 2^(q + 1) buckets with nothing in it. */
  lemma InsertCrashes(hash: int -> int, s: State, e: int, k: nat, q: nat, load: real) returns (sched: seq<Action>)
    requires s.threads != [] && s.threads[0].Idle? && Base(s.mem, k, q + 1, load) && q <= 29 && q + 1 <= k + 9 && IsInt(hash(e)) && hash(e) < 0
    requires hash(e) % S.Pow2(q) == 0 && hash(e) % S.Pow2(q + 1) != 0
    ensures var s' := Exec(hash, s, sched); s'.threads != [] && Crashed(s'.threads[0])
  {
    BadNumber(hash(e), q);
    RoomFor(k, q + 1);
    var m, th := InsertFails(hash, 0, s.mem, e, k, q, 32 - q, load);
    sched := CallRun(hash, 0, s, Op(L.Add, e), m, th);
  }

  lemma RoomFor(k: nat, j: nat)
    requires j <= k + 9
    ensures S.Pow2(j) <= ARRAY_SIZE * S.Pow2(k)
  {
    S.Pow2Adds(9, k);
    assert S.Pow2(9) == ARRAY_SIZE;
    S.Pow2Grows(j, k + 9);
  }

  lemma FirstBase(n: nat, k: nat, load: real)
    ensures Base(Init(n, k, load).mem, k, 1, load)
  {
  }

  /** The lowest bit in which h differs from a multiple of 2^w. */
  lemma {:induction false} LowestBit(h: int, w: nat) returns (q: nat)
    requires h % S.Pow2(w) != 0
    ensures q < w && h % S.Pow2(q) == 0 && h % S.Pow2(q + 1) != 0
  {
    if h % S.Pow2(w - 1) == 0 { q := w - 1; } else { q := LowestBit(h, w - 1); }
  }

  /** In a new set, one insert of an element with a negative odd hash fails, whatever the load factor. */
  lemma OddHashCrashes(hash: int -> int, e: int, k: nat, load: real) returns (sched: seq<Action>)
    requires IsInt(hash(e)) && hash(e) < 0 && hash(e) % 2 != 0
    ensures var s := Exec(hash, Init(1, k, load), sched); s.threads != [] && Crashed(s.threads[0])
  {
    FirstBase(1, k, load);
    sched := InsertCrashes(hash, Init(1, k, load), e, k, 0, load);
  }

  /** For example a hash of -1. */
  lemma MinusOneCrashes(k: nat, load: real) returns (sched: seq<Action>)
    ensures var s := Exec(_ => -1, Init(1, k, load), sched); s.threads != [] && Crashed(s.threads[0])
  {
    sched := OddHashCrashes(_ => -1, 0, k, load);
  }

  /** For every hash that is not good, some run fails. */
  lemma BadHashCrashes(hash: int -> int, e: int, k: nat) returns (load: real, sched: seq<Action>)
    requires k <= 22 && IsInt(hash(e)) && !GoodHash(hash(e), k + 9)
    ensures var s := Exec(hash, Init(2, k, load), sched); s.threads != [] && Crashed(s.threads[0])
  {
    load := -1.0;
    var q := LowestBit(hash(e), SizeBits(k + 9));
    FirstBase(2, k, load);
    MaxSizeIs(k);
    if q > 0 { S.Pow2Grows(q + 1, k + 9); }
    var before := GrowTo(hash, Init(2, k, load), e, k, q + 1, load);
    var more := InsertCrashes(hash, Exec(hash, Init(2, k, load), before), e, k, q, load);
    ExecAppends(hash, Init(2, k, load), before, more);
    sched := before + more;
  }

  /** The set is safe in every run exactly if all hashes are good. */
  lemma SafeExactly(hash: int -> int, k: nat)
    requires k <= 22 && forall e :: IsInt(hash(e))
    ensures HashOk(hash, k + 9) <==> forall n: nat, load: real, sched: seq<Action> :: Results.Safe(Exec(hash, Init(n, k, load), sched))
  {
    if HashOk(hash, k + 9) {
      forall n: nat, load: real, sched: seq<Action> ensures Results.Safe(Exec(hash, Init(n, k, load), sched)) {
        Results.SetIsSafe(hash, n, k, load, sched);
      }
    } else {
      var e :| !GoodHash(hash(e), k + 9);
      var load, sched := BadHashCrashes(hash, e, k);
      assert !Results.CallSafe(Exec(hash, Init(2, k, load), sched).threads[0]);
      assert !Results.Safe(Exec(hash, Init(2, k, load), sched));
    }
  }
}
