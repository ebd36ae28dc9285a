/**
 The split-ordered hash set of lockfree_set.h: one sorted list of dummies and elements, and a table of
 pointers to dummies, filled lazily, that doubles without moving anything.

 Every access to shared memory is a step: to the table size, to the count, to the array of segments, to a
 bucket cell, and each step of the list calls.  get_bucket is entered with a goal, which says what is done
 with the pointer it delivers.  initialize_bucket calls itself; the buckets it has still to finish are in
 stack, innermost last.  A failed assertion, and a read outside the array of segments, is a step to Crash.

 segments holds the numbers of the segments that have been allocated; a segment, once installed, is never
 replaced, so loading its address and then a cell in it is one step.  A cell that cells does not mention is
 null.  bits, in memory and in a thread, is the logarithm of the table size (history).
 */
module HashSet {
  import opened Linearizability
  import L = ListCore
  import S = SplitOrder
  import opened CppInts

  datatype Op = Op(kind: L.Kind, e: int)

  function SetSpec(s: set<int>, op: Op): (set<int>, bool) {
    match op.kind
    case Search => (s, op.e in s)
    case Remove => (s - {op.e}, op.e in s)
    case _ => (s + {op.e}, op.e !in s)
  }

  const ARRAY_SIZE := 512

  datatype Mem = Mem(
    list: L.Mem, size: nat, count: int, segments: set<nat>, cells: map<nat, L.Ptr>,
    segmentSize: nat, load: real, bits: nat, limitBits: nat)

  datatype Goal =
    | TestBucket | NeedBucket | StartAt                       // insert, remove, search
    | TestParent | NeedParent | StartParent                   // initialize_bucket
    | CheckSet | CheckDone

  datatype PC =
    | ReadSize
    | GetSize | GetSegment | TestSegment | NewSegment | GetCell      // get_bucket
    | RunList                                                        // the list call of the operation
    | RunDummy | RunCheck | SetSegment | SetNewSegment | SetCell     // initialize_bucket and set_bucket
    | ReadOldSize | IncCount | ReadCount | Grow | DecCount
    | Leave | Crash

  datatype Local = Idle | Busy(
    op: Op, pc: PC, bucket: nat, goal: Goal, target: nat, call: L.Local, stack: seq<nat>, addr: L.Ptr,
    oldSize: nat, bits: nat)

  datatype State = State(mem: Mem, threads: seq<Local>, trace: seq<Event<Op, bool>>)
  datatype Action = Invoke(t: nat, op: Op) | Continue(t: nat)

  // ---------------------------------------------------------------- keys and cells

  function ElementKey(hash: int -> int, e: int): L.Key { L.Key(S.RegularKey(S.Low31(hash(e))), e) }
  function BucketKey(b: nat): L.Key { L.Key(S.DummyKey(b), 0) }

  function Segment(m: Mem, b: nat): nat { if m.segmentSize > 0 then b / m.segmentSize else 0 }
  function Cell(m: Mem, b: nat): L.Ptr { if b in m.cells then m.cells[b] else L.NULL }

  /** The bucket of an element with hash h: search makes the hash unsigned before it takes the remainder, insert and
      remove after. */
  function BucketFor(kind: L.Kind, h: int, size: nat): nat
    requires size > 0
  {
    if kind.Search? then AsUnsigned(h) % size else AsUnsigned(Remainder(h, size))
  }

  /** The bound on the size, DEFAULT_ARRAY_SIZE * segmentSize, is a product of ints. */
  function MaxSize(segmentSize: nat): int { AsInt(ARRAY_SIZE * segmentSize) }

  function Top(stack: seq<nat>): nat { if stack == [] then 0 else stack[|stack| - 1] }

  // ---------------------------------------------------------------- one step

  const NoCall := L.Local(L.Search, L.Key(0, 0), L.Copy, L.Link(L.NULL, false), L.NULL, L.ReadStart, L.Copy, L.NULL,
                          L.Link(L.NULL, false), false, false, {})

  function Ask(th: Local, b: nat, goal: Goal): Local
    requires th.Busy?
  {
    th.(pc := GetSize, target := b, goal := goal)
  }

  /** get_bucket has delivered v. */
  function Deliver(hash: int -> int, m: Mem, th: Local, v: L.Ptr, t: nat): (Mem, Local)
    requires th.Busy?
  {
    var b := Top(th.stack);
    match th.goal
    case TestBucket =>
      if v == L.NULL then (m, Ask(th.(stack := [th.bucket]), S.Parent(th.bucket), TestParent))
      else (m, Ask(th, th.bucket, NeedBucket))
    case NeedBucket => if v == L.NULL then (m, th.(pc := Crash)) else (m, Ask(th, th.bucket, StartAt))
    case StartAt =>
      var (l, call) := L.Enter(m.list, th.op.kind, ElementKey(hash, th.op.e), L.Copy, v, t);
      (m.(list := l), th.(pc := RunList, call := call))
    case TestParent =>
      if v == L.NULL then (m, Ask(th.(stack := th.stack + [S.Parent(b)]), S.Parent(S.Parent(b)), TestParent))
      else (m, Ask(th, S.Parent(b), NeedParent))
    case NeedParent => if v == L.NULL then (m, th.(pc := Crash)) else (m, Ask(th, S.Parent(b), StartParent))
    case StartParent =>
      var (l, call) := L.Enter(m.list, L.AddAddr, BucketKey(b), L.Copy, v, t);
      (m.(list := l), th.(pc := RunDummy, call := call))
    case CheckSet => if v != th.addr then (m, th.(pc := Crash)) else (m, Ask(th, b, CheckDone))
    case CheckDone =>
      if v != th.addr then (m, th.(pc := Crash))
      else
        var rest := if th.stack == [] then [] else th.stack[..|th.stack| - 1];
        if rest == [] then (m, Ask(th.(stack := rest), th.bucket, NeedBucket))
        else (m, Ask(th.(stack := rest), S.Parent(Top(rest)), NeedParent))
  }

  function Mark(t: nat, op: Op, e: L.Effect): seq<Event<Op, bool>> {
    match e
    case Nothing => []
    case Takes(ans) => [Commit(t, op, ans)]
    case Sees(ans) => [Observe(t, op, ans)]
  }

  function Step(hash: int -> int, m: Mem, th: Local, t: nat): (Mem, Local, seq<Event<Op, bool>>)
    requires th.Busy?
  {
    var b := Top(th.stack);
    match th.pc
    case ReadSize =>
      if m.size == 0 then (m, th, [])
      else
        var b := BucketFor(th.op.kind, hash(th.op.e), m.size);
        (m, Ask(th.(bucket := b, bits := m.bits), b, TestBucket), [])
    // get_bucket
    case GetSize => (m, th.(pc := GetSegment, target := if m.size > 0 then th.target % m.size else th.target), [])
    case GetSegment => (m, th.(pc := if Segment(m, th.target) in m.segments then GetCell else TestSegment), [])
    case TestSegment => (m, th.(pc := if Segment(m, th.target) in m.segments then GetCell else NewSegment), [])
    case NewSegment => (m.(segments := m.segments + {Segment(m, th.target)}), th.(pc := GetCell), [])
    case GetCell =>
      var (m', th') := Deliver(hash, m, th, Cell(m, th.target), t);
      (m', th', [])
    // list calls
    case RunList =>
      if th.call.pc.Answer? then
        (m, th.(pc := if !th.call.ans || th.op.kind.Search? then Leave else if th.op.kind.Remove? then DecCount else ReadOldSize), [])
      else
        var (l, call, e) := L.Step(m.list, th.call);
        (m.(list := l), th.(call := call), Mark(t, th.op, e))
    case RunDummy =>
      if th.call.pc.Answer? then
        var (l, call) := L.Enter(m.list, L.Search, BucketKey(b), L.Copy, th.call.copy.p, t);
        (m.(list := l), th.(pc := RunCheck, addr := th.call.cur, call := call), [])
      else
        var (l, call, e) := L.Step(m.list, th.call);
        (m.(list := l), th.(call := call), [])
    case RunCheck =>
      if th.call.pc.Answer? then (m, th.(pc := if th.call.ans then SetSegment else Crash), [])
      else
        var (l, call, e) := L.Step(m.list, th.call);
        (m.(list := l), th.(call := call), [])
    // set_bucket
    case SetSegment =>
      (m, th.(pc := if Segment(m, b) >= ARRAY_SIZE then Crash else if Segment(m, b) in m.segments then SetCell else SetNewSegment), [])
    case SetNewSegment => (m.(segments := m.segments + {Segment(m, b)}), th.(pc := SetCell), [])
    case SetCell => (if Cell(m, b) == L.NULL then m.(cells := m.cells[b := th.addr]) else m, Ask(th, b, CheckSet), [])
    // after a successful insert or remove
    case ReadOldSize => (m, th.(pc := IncCount, oldSize := m.size), [])
    case IncCount => (m.(count := m.count + 1), th.(pc := ReadCount), [])
    case ReadCount =>
      var full := th.oldSize > 0 && Quotient(m.count, th.oldSize) as real > m.load;
      (m, th.(pc := if full && th.oldSize < MaxSize(m.segmentSize) then Grow else Leave), [])
    case Grow =>
      (if m.size == th.oldSize then m.(size := 2 * th.oldSize, bits := m.bits + 1) else m, th.(pc := Leave), [])
    case DecCount => (m.(count := m.count - 1), th.(pc := Leave), [])
    case Leave => (m, Idle, [Return(t, th.call.ans)])
    case Crash => (m, th, [])
  }

  /** An operation of the set; it has no use for add_returnAddress. */
  predicate IsOp(op: Op) { !op.kind.AddAddr? }

  function Apply(hash: int -> int, s: State, act: Action): State {
    var t := act.t;
    if t >= |s.threads| then s
    else if act.Invoke? && s.threads[t].Idle? && IsOp(act.op) then
      s.(threads := s.threads[t := Busy(act.op, ReadSize, 0, TestBucket, 0, NoCall, [], L.NULL, 0, 0)],
         trace := s.trace + [Call(t, act.op)])
    else if act.Continue? && s.threads[t].Busy? then
      var (m', th', es) := Step(hash, s.mem, s.threads[t], t);
      State(m', s.threads[t := th'], s.trace + es)
    else s
  }

  /** A new set: two buckets, the dummy of bucket 0 in the list and in its cell, segments of 2^k cells. */
  function Init(n: nat, k: nat, load: real): State {
    var list := L.Mem(L.Link(1, false), [L.Key(0, 0), BucketKey(0)], [L.Link(L.NULL, false), L.Link(L.NULL, false)],
                      [L.Nil, L.Listed], [1]);
    State(Mem(list, 2, 0, {0}, map[0 := 1], S.Pow2(k), load, 1, k + 9), seq(n, _ => Idle), [])
  }

  function Exec(hash: int -> int, s: State, sched: seq<Action>): State {
    if sched == [] then s else Apply(hash, Exec(hash, s, sched[..|sched| - 1]), sched[|sched| - 1])
  }
}
