/**
 Hazard-pointer reclamation (smr.h) under the Treiber stack that relies on it (stack.h), one access to
 shared memory a step, with nodes really recycled: a node that a scan releases goes to the free list of
 the scanning thread's record, or to the heap when that list is full, and an allocation takes it from
 there again.  Which address the heap hands out is up to the schedule.

 A thread gets a hazard-pointer record on its first call, by claiming an inactive one or by pushing a
 new one, and gives it up when it exits.  K is 1, as for the stack.

 History variables, which no step looks at: own says where each node is, stack is the list of nodes from
 top, order lists the records in the order in which they were pushed, guard is the pointer a record's
 owner has both published in its slot and found again at top, and a thread's ri, ci and cnt are positions
 in order.  While a scan walks its retired list, rlist and kept hold the part still to be examined and the
 part put back; the source keeps the two parts in local variables until the walk is over.
 */
module Smr {
  import opened Linearizability
  import opened StackSpecs

  type Ptr = nat
  type RecPtr = nat
  const NULL: nat := 0
  const MAX_FREE_NODES := 32
  const MINIMAL_RLIST_LEN := 16

  /** Where a node is: the heap's, in the free list of a record, still private to the thread pushing it,
      on the stack, popped by a thread that has not retired it yet, or in the retired list of a record. */
  datatype Where = Nowhere | Heap | Free(r: RecPtr) | Private(t: nat) | OnStack | Popped(t: nat) | Retired(r: RecPtr)

  datatype Rec = Rec(
    hp: Ptr, guard: Ptr, next: RecPtr, active: bool, nrThreads: nat,
    rlist: seq<Ptr>, kept: seq<Ptr>, rcount: nat, free: seq<Ptr>)

  datatype Mem = Mem(
    top: Ptr, data: seq<int>, next: seq<Ptr>, own: seq<Where>, stack: seq<Ptr>,
    head: RecPtr, hpCount: nat, rh: nat, recs: seq<Rec>, order: seq<RecPtr>)

  datatype PC =
    | Idle
    | FindRec | WalkRec | ClaimRec                                       // allocHPRec: claim a record
    | CountRec | ChkCount | ReadCount | StoreRH | NewRec | LinkRec | SizeRec | PushRec   // or push a new one
    | NewNode | ReadTop | WriteNext | CasPush | RetPush
    | PopRead | PopGuard | PopCheck | PopNext | CasPop | PopClear | PopData | RetPop
    | Retire | ChkRH | ScanHead | ScanSlot | ScanFree                    // delNode and scan
    | PeekRead | PeekGuard | PeekCheck | PeekData | PeekClear | RetPeek
    | RetEmpty
    | ExitClean | ExitClear | ExitRelease                                // retireHPRec

  /** cur, plist, max and nr belong to allocHPRec and scan. */
  datatype Local = Local(
    pc: PC, op: Op, rec: RecPtr, node: Ptr, oldTop: Ptr, newTop: Ptr, ret: int,
    cur: RecPtr, plist: seq<Ptr>, max: nat, nr: nat,
    ri: nat, ci: nat, cnt: nat)

  datatype State = State(mem: Mem, threads: seq<Local>, trace: seq<Event<Op, Ret>>)

  /** A step may need the heap to choose an address. */
  datatype Action = Invoke(t: nat, op: Op) | Continue(t: nat, addr: Ptr) | Exit(t: nat)

  const NoRec := Rec(NULL, NULL, NULL, true, 0, [], [], 0, [])

  function Init(n: nat): State {
    State(Mem(NULL, [0], [NULL], [Nowhere], [], NULL, 0, MINIMAL_RLIST_LEN, [NoRec], []),
          seq(n, _ => Local(Idle, Pop, NULL, NULL, NULL, NULL, 0, NULL, [], 0, 0, 0, 0, 0)), [])
  }

  // ---------------------------------------------------------------- reading and writing

  function R(m: Mem, r: RecPtr): Rec { if r < |m.recs| then m.recs[r] else NoRec }
  function SetR(m: Mem, r: RecPtr, rec: Rec): Mem { if r < |m.recs| then m.(recs := m.recs[r := rec]) else m }
  function Next(m: Mem, p: Ptr): Ptr { if p < |m.next| then m.next[p] else NULL }
  function Data(m: Mem, p: Ptr): int { if p < |m.data| then m.data[p] else 0 }
  function Own(m: Mem, p: Ptr): Where { if p < |m.own| then m.own[p] else Nowhere }
  function SetOwn(m: Mem, p: Ptr, w: Where): Mem { if p < |m.own| then m.(own := m.own[p := w]) else m }

  /** operator new: an address the heap has back, or one it never handed out. */
  function Malloc(m: Mem, addr: Ptr): Ptr {
    if Own(m, addr).Heap? then addr else |m.own|
  }

  /** Node p is built for thread t: constructed, with value v stored in it. */
  function Build(m: Mem, p: Ptr, t: nat, v: int): Mem
    requires |m.data| == |m.next| == |m.own|
  {
    if p < |m.own| then m.(data := m.data[p := v], next := m.next[p := NULL], own := m.own[p := Private(t)])
    else m.(data := m.data + [v], next := m.next + [NULL], own := m.own + [Private(t)])
  }

  /** HPRecType::freeData. */
  function FreeData(m: Mem, r: RecPtr, p: Ptr): Mem {
    if |R(m, r).free| < MAX_FREE_NODES then SetOwn(SetR(m, r, R(m, r).(free := R(m, r).free + [p])), p, Free(r))
    else SetOwn(m, p, Heap)
  }

  function Release(own: seq<Where>, ps: seq<Ptr>): seq<Where> {
    seq(|own|, i requires 0 <= i < |own| => if i in ps then Heap else own[i])
  }

  // ---------------------------------------------------------------- one step of one thread

  function Start(th: Local): Local {
    th.(pc := match th.op case Push(_) => NewNode case Pop => PopRead case Peek => PeekRead)
  }

  function Step(m: Mem, th: Local, t: nat, addr: Ptr): (Mem, Local, seq<Event<Op, Ret>>)
    requires |m.data| == |m.next| == |m.own|
  {
    var r := th.rec;
    var oldTop := th.oldTop;
    match th.pc
    case Idle => (m, th, [])
    // allocHPRec
    case FindRec => (m, th.(pc := WalkRec, cur := m.head, ci := |m.order|), [])
    case WalkRec =>
      if th.cur == NULL then (m, th.(pc := CountRec), [])
      else if R(m, th.cur).active then (m, th.(cur := R(m, th.cur).next, ci := if th.ci > 0 then th.ci - 1 else 0), [])
      else (m, th.(pc := ClaimRec), [])
    case ClaimRec =>
      var c := R(m, th.cur);
      if c.active then (m, th.(pc := WalkRec, cur := c.next, ci := if th.ci > 0 then th.ci - 1 else 0), [])
      else (SetR(m, th.cur, c.(active := true)), Start(th.(rec := th.cur, ri := if th.ci > 0 then th.ci - 1 else 0)), [])
    case CountRec => (m.(hpCount := m.hpCount + 1), th.(pc := ChkCount), [])
    case ChkCount => (m, th.(pc := if m.hpCount >= MINIMAL_RLIST_LEN / 2 then ReadCount else NewRec), [])
    case ReadCount => (m, th.(pc := StoreRH, nr := m.hpCount), [])
    case StoreRH => (m.(rh := th.nr * 2), th.(pc := NewRec), [])
    case NewRec => (m.(recs := m.recs + [NoRec]), th.(pc := LinkRec, rec := |m.recs|), [])
    case LinkRec => (SetR(m, r, R(m, r).(next := m.head)), th.(pc := SizeRec, cur := m.head, cnt := |m.order|), [])
    case SizeRec => (SetR(m, r, R(m, r).(nrThreads := m.hpCount)), th.(pc := PushRec), [])
    case PushRec =>
      if m.head == th.cur then (m.(head := r, order := m.order + [r]), Start(th.(ri := |m.order|)), [])
      else (m, th.(pc := LinkRec), [])
    // push
    case NewNode =>
      var f := R(m, r).free;
      if f == [] then
        var p := Malloc(m, addr);
        (Build(m, p, t, if th.op.Push? then th.op.v else 0), th.(pc := ReadTop, node := p), [])
      else
        var p := f[|f| - 1];
        (Build(SetR(m, r, R(m, r).(free := f[..|f| - 1])), p, t, if th.op.Push? then th.op.v else 0), th.(pc := ReadTop, node := p), [])
    case ReadTop => (m, th.(pc := WriteNext, oldTop := m.top), [])
    case WriteNext =>
      (if th.node < |m.next| then m.(next := m.next[th.node := oldTop]) else m, th.(pc := CasPush), [])
    case CasPush =>
      if m.top == oldTop then
        (SetOwn(m.(top := th.node, stack := [th.node] + m.stack), th.node, OnStack), th.(pc := RetPush), [Commit(t, th.op, Pushed)])
      else (m, th.(pc := ReadTop), [])
    case RetPush => (m, th.(pc := Idle), [Return(t, Pushed)])
    // pop
    case PopRead =>
      if m.top == NULL then (m, th.(pc := RetEmpty), [Commit(t, th.op, Empty)])
      else (m, th.(pc := PopGuard, oldTop := m.top), [])
    case PopGuard => (SetR(m, r, R(m, r).(hp := oldTop, guard := NULL)), th.(pc := PopCheck), [])
    case PopCheck =>
      if m.top == oldTop then (SetR(m, r, R(m, r).(guard := oldTop)), th.(pc := PopNext), [])
      else (m, th.(pc := PopRead), [])
    case PopNext => (m, th.(pc := CasPop, newTop := Next(m, oldTop)), [])
    case CasPop =>
      if m.top == oldTop then
        (SetOwn(m.(top := th.newTop, stack := if m.stack == [] then [] else m.stack[1..]), oldTop, Popped(t)), th.(pc := PopClear),
         [Commit(t, th.op, Got(Data(m, oldTop)))])
      else (m, th.(pc := PopRead), [])
    case PopClear => (SetR(m, r, R(m, r).(hp := NULL, guard := NULL)), th.(pc := PopData), [])
    case PopData => (m, th.(pc := Retire, ret := Data(m, oldTop)), [])
    case Retire =>
      (SetOwn(SetR(m, r, R(m, r).(rlist := [oldTop] + R(m, r).rlist, rcount := R(m, r).rcount + 1)), oldTop, Retired(r)),
       th.(pc := ChkRH), [])
    case ChkRH => (m, th.(pc := if R(m, r).rcount >= m.rh then ScanHead else RetPop), [])
    case ScanHead =>
      (m, th.(pc := ScanSlot, cur := m.head, ci := |m.order|, max := R(m, m.head).nrThreads, plist := [], nr := 0), [])
    case ScanSlot =>
      if th.cur == NULL then (m, th.(pc := ScanFree), [])
      else
        var c := R(m, th.cur);
        (m, th.(cur := c.next, ci := if th.ci > 0 then th.ci - 1 else 0,
                plist := if c.hp != NULL then th.plist + [c.hp] else th.plist), [])
    case ScanFree =>
      var l, k := R(m, r).rlist, R(m, r).kept;
      if l == [] then (SetR(m, r, R(m, r).(rlist := k, kept := [], rcount := th.nr)), th.(pc := RetPop), [])
      else if l[0] in th.plist then (SetR(m, r, R(m, r).(rlist := l[1..], kept := [l[0]] + k)), th.(nr := th.nr + 1), [])
      else (FreeData(SetR(m, r, R(m, r).(rlist := l[1..])), r, l[0]), th, [])
    case RetPop => (m, th.(pc := Idle), [Return(t, Got(th.ret))])
    // peekTop
    case PeekRead =>
      if m.top == NULL then (m, th.(pc := RetEmpty), [Commit(t, th.op, Empty)])
      else (m, th.(pc := PeekGuard, oldTop := m.top), [])
    case PeekGuard => (SetR(m, r, R(m, r).(hp := oldTop, guard := NULL)), th.(pc := PeekCheck), [])
    case PeekCheck =>
      if m.top == oldTop then
        (SetR(m, r, R(m, r).(guard := oldTop)), th.(pc := PeekData), [Commit(t, th.op, Got(Data(m, oldTop)))])
      else (m, th.(pc := PeekRead), [])
    case PeekData => (m, th.(pc := PeekClear, ret := Data(m, oldTop)), [])
    case PeekClear => (SetR(m, r, R(m, r).(hp := NULL, guard := NULL)), th.(pc := RetPeek), [])
    case RetPeek => (m, th.(pc := Idle), [Return(t, Got(th.ret))])
    case RetEmpty => (m, th.(pc := Idle), [Return(t, Empty)])
    // thread exit
    case ExitClean => (SetR(m.(own := Release(m.own, R(m, r).free)), r, R(m, r).(free := [])), th.(pc := ExitClear), [])
    case ExitClear => (SetR(m, r, R(m, r).(hp := NULL, guard := NULL)), th.(pc := ExitRelease), [])
    case ExitRelease => (SetR(m, r, R(m, r).(active := false)), th.(pc := Idle, rec := NULL), [])
  }

  predicate Sized(m: Mem) { |m.data| == |m.next| == |m.own| }

  function Apply(s: State, act: Action): State {
    var t := act.t;
    if t >= |s.threads| || !Sized(s.mem) then s
    else
      var th := s.threads[t];
      match act
      case Invoke(_, op) =>
        if !th.pc.Idle? then s
        else
          var th := th.(op := op);
          s.(threads := s.threads[t := if th.rec == NULL then th.(pc := FindRec) else Start(th)], trace := s.trace + [Call(t, op)])
      case Exit(_) =>
        if th.pc.Idle? && th.rec != NULL then s.(threads := s.threads[t := th.(pc := ExitClean)]) else s
      case Continue(_, addr) =>
        var (m', th', es) := Step(s.mem, th, t, addr);
        State(m', s.threads[t := th'], s.trace + es)
  }

  function Exec(s: State, sched: seq<Action>): State {
    if sched == [] then s else Apply(Exec(s, sched[..|sched| - 1]), sched[|sched| - 1])
  }
}
