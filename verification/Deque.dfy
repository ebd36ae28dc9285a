/**
 The CAS-based deque of deque.h: an anchor <left, right, status> changed by one compare-and-swap, and a
 doubly linked list whose link next to a freshly pushed end may lag until somebody stabilises it.

 Every step below is one access to shared memory.  The two ends are mirror images in the source, so the
 steps are written once for a side d; the few places where the source is not symmetric (which end is
 tested first) are kept as they are.  Nodes are never reused.

 Mem also carries history variables that no step looks at to decide what to do: q is the sequence of
 nodes that make up the deque, stamp the order in which nodes were pushed, and each thread keeps in snap
 the value q had when it copied the anchor.
 */
module Deque {
  import opened Linearizability
  import opened DequeSpecs

  type Ptr = nat
  const NULL: Ptr := 0

  datatype Status = Stable | LPush | RPush
  datatype Anchor = Anchor(l: Ptr, r: Ptr, st: Status)

  // ---------------------------------------------------------------- state

  datatype Mem = Mem(
    anchor: Anchor, data: seq<int>, left: seq<Ptr>, right: seq<Ptr>,
    q: seq<Ptr>, stamp: seq<nat>, clock: nat)

  /** The instruction a thread executes next. */
  datatype PC =
    | Snap                                          // copy the anchor
    | Link | CasPush | CasEmpty                     // push
    | ChkOne | CasOne                               // pop the only element
    | ChkL | ChkR | ChkA | ReadPrev | ChkAgain | CasPop
    | StL | StR | StA | StPrev | StEnd | StA2 | StNbr | StA3 | StFix | StDone   // stabilise
    | RetPush | RetEmpty | RetPop
    | Crash                                         // an assertion of the source failed

  datatype Local =
    | Idle
    | Busy(op: Op, pc: PC, node: Ptr, a: Anchor, snap: seq<Ptr>, prev: Ptr, nbr: Ptr, pushed: bool)

  datatype State = State(mem: Mem, threads: seq<Local>, trace: seq<Event<Op, Ret>>)

  datatype Action = Invoke(t: nat, op: Op) | Continue(t: nat)

  function Init(n: nat): State {
    State(Mem(Anchor(NULL, NULL, Stable), [0], [NULL], [NULL], [], [0], 0), seq(n, _ => Idle), [])
  }

  // ---------------------------------------------------------------- reading and writing

  function At(s: seq<Ptr>, p: Ptr): Ptr { if p < |s| then s[p] else NULL }
  function Value(m: Mem, p: Ptr): int { if p < |m.data| then m.data[p] else 0 }
  function Stamp(m: Mem, p: Ptr): nat { if p < |m.stamp| then m.stamp[p] else 0 }
  function Put(s: seq<Ptr>, p: Ptr, x: Ptr): seq<Ptr> { if p < |s| then s[p := x] else s }

  function End(a: Anchor, d: Side): Ptr { if d.Left? then a.l else a.r }
  function SetEnd(a: Anchor, d: Side, p: Ptr): Anchor { if d.Left? then a.(l := p) else a.(r := p) }
  function PushStatus(d: Side): Status { if d.Left? then LPush else RPush }
  function PushSide(st: Status): Side { if st.RPush? then Right else Left }

  /** The link of x that points away from end d, and the one that points towards it. */
  function Inward(m: Mem, d: Side, x: Ptr): Ptr { if d.Left? then At(m.right, x) else At(m.left, x) }
  function Outward(m: Mem, d: Side, x: Ptr): Ptr { if d.Left? then At(m.left, x) else At(m.right, x) }
  function SetInward(m: Mem, d: Side, x: Ptr, y: Ptr): Mem {
    if d.Left? then m.(right := Put(m.right, x, y)) else m.(left := Put(m.left, x, y))
  }
  function SetOutward(m: Mem, d: Side, x: Ptr, y: Ptr): Mem {
    if d.Left? then m.(left := Put(m.left, x, y)) else m.(right := Put(m.right, x, y))
  }

  function PushEnd(q: seq<Ptr>, d: Side, x: Ptr): seq<Ptr> { if d.Left? then [x] + q else q + [x] }
  function PopEnd(q: seq<Ptr>, d: Side): seq<Ptr> {
    if q == [] then q else if d.Left? then q[1..] else q[..|q| - 1]
  }

  function Publish(m: Mem, d: Side, x: Ptr, a: Anchor): Mem {
    m.(anchor := a, q := PushEnd(m.q, d, x), clock := m.clock + 1,
       stamp := if x < |m.stamp| then m.stamp[x := m.clock + 1] else m.stamp)
  }

  // ---------------------------------------------------------------- one step of one thread

  /** The effect of the next instruction of thread t on memory, on its locals, and on the trace. */
  function Step(m: Mem, th: Local, t: nat): (Mem, Local, seq<Event<Op, Ret>>)
    requires th.Busy?
  {
    var a, d := th.a, th.op.d;
    var e := PushSide(a.st);
    var retry := (m, th.(pc := Snap), []);
    match th.pc
    case Snap =>
      var a := m.anchor;
      var th := th.(a := a, snap := m.q);
      if th.op.Push? then
        if End(a, d) == NULL then (m, th.(pc := if a.l == a.r then CasEmpty else Crash), [])
        else (m, th.(pc := if a.st.Stable? then Link else StL), [])
      else if a.r == NULL then
        if a.l == NULL && a.st.Stable? then (m, th.(pc := RetEmpty), [Commit(t, th.op, Empty)])
        else (m, th.(pc := Crash), [])
      else if a.l == a.r then (m, th.(pc := ChkOne), [])
      else (m, th.(pc := if a.st.Stable? then ChkL else StL), [])
    // pushing
    case CasEmpty =>
      if m.anchor == a then
        (Publish(m, d, th.node, Anchor(th.node, th.node, Stable)), th.(pc := RetPush), [Commit(t, th.op, Pushed)])
      else retry
    case Link => (SetInward(m, d, th.node, End(a, d)), th.(pc := CasPush), [])
    case CasPush =>
      if m.anchor == a then
        var a' := SetEnd(a, d, th.node).(st := PushStatus(d));
        var m' := Publish(m, d, th.node, a');
        (m', th.(pc := StL, a := a', snap := m'.q, pushed := true), [Commit(t, th.op, Pushed)])
      else retry
    // popping
    case ChkOne => if End(m.anchor, d) == End(a, d) then (m, th.(pc := CasOne), []) else retry
    case CasOne =>
      if m.anchor == a then
        (m.(anchor := Anchor(NULL, NULL, a.st), q := PopEnd(m.q, d)), th.(pc := RetPop),
         [Commit(t, th.op, Got(Value(m, End(a, d))))])
      else retry
    case ChkL => if m.anchor.l == a.l then (m, th.(pc := ChkR), []) else retry
    case ChkR => if m.anchor.r == a.r then (m, th.(pc := ChkA), []) else retry
    case ChkA => if m.anchor == a then (m, th.(pc := ReadPrev), []) else retry
    case ReadPrev => (m, th.(pc := ChkAgain, prev := Inward(m, d, End(a, d))), [])
    case ChkAgain =>
      if m.anchor.r == a.r then (m, th.(pc := if th.prev == NULL then Crash else CasPop), []) else retry
    case CasPop =>
      if m.anchor == a then
        (m.(anchor := SetEnd(a, d, th.prev), q := PopEnd(m.q, d)), th.(pc := RetPop),
         [Commit(t, th.op, Got(Value(m, End(a, d))))])
      else retry
    // stabilising the end that was pushed last
    case StL => (m, if m.anchor.l == a.l then th.(pc := StR) else Leave(th), [])
    case StR => (m, if m.anchor.r == a.r then th.(pc := if a.r == NULL || a.l == NULL then Crash else StA) else Leave(th), [])
    case StA => (m, if m.anchor == a then th.(pc := StPrev) else Leave(th), [])
    case StPrev =>
      var prev := Inward(m, e, End(a, e));
      (m, th.(pc := if prev == NULL then Crash else StEnd, prev := prev), [])
    case StEnd => (m, if End(m.anchor, e) == End(a, e) then th.(pc := StA2) else Leave(th), [])
    case StA2 => (m, if m.anchor == a then th.(pc := StNbr) else Leave(th), [])
    case StNbr =>
      var nbr := Outward(m, e, th.prev);
      (m, th.(pc := if nbr != End(a, e) then StA3 else StDone, nbr := nbr), [])
    case StA3 => (m, if m.anchor == a then th.(pc := StFix) else Leave(th), [])
    case StFix =>
      if Outward(m, e, th.prev) == th.nbr then (SetOutward(m, e, th.prev, End(a, e)), th.(pc := StDone), [])
      else (m, Leave(th), [])
    case StDone => (if m.anchor == a then m.(anchor := a.(st := Stable)) else m, Leave(th), [])
    // returning
    case RetPush => (m, Idle, [Return(t, Pushed)])
    case RetEmpty => (m, Idle, [Return(t, Empty)])
    case RetPop => (m, Idle, [Return(t, Got(Value(m, End(a, d))))])
    case Crash => (m, th, [])
  }

  /** Leaving stabilize: a push that has succeeded returns, any other operation starts over. */
  function Leave(th: Local): Local
    requires th.Busy?
  {
    th.(pc := if th.pushed then RetPush else Snap)
  }

  /** Entering an operation; a push first gets a fresh node. */
  function Enter(m: Mem, op: Op): (Mem, Local) {
    match op
    case Push(_, v) =>
      (m.(data := m.data + [v], left := m.left + [NULL], right := m.right + [NULL], stamp := m.stamp + [0]),
       Busy(op, Snap, |m.data|, m.anchor, [], NULL, NULL, false))
    case Pop(_) => (m, Busy(op, Snap, NULL, m.anchor, [], NULL, NULL, false))
  }

  /** One action of the schedule; an action that does not apply changes nothing. */
  function Apply(s: State, act: Action): State {
    var t := act.t;
    if t >= |s.threads| then s
    else if act.Invoke? && s.threads[t].Idle? then
      var (m', th') := Enter(s.mem, act.op);
      State(m', s.threads[t := th'], s.trace + [Call(t, act.op)])
    else if act.Continue? && s.threads[t].Busy? then
      var (m', th', es) := Step(s.mem, s.threads[t], t);
      State(m', s.threads[t := th'], s.trace + es)
    else s
  }

  /** The state after a whole schedule. */
  function Exec(s: State, sched: seq<Action>): State {
    if sched == [] then s else Apply(Exec(s, sched[..|sched| - 1]), sched[|sched| - 1])
  }
}
