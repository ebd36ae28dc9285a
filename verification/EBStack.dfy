/**
 The elimination-backoff stack of ebstack.h, one access to shared memory a step.

 A push whose compare-and-swap on top fails may hand its node to a waiting pop, or offer it in a slot of
 coll_push and wait for a pop to take it; a pop that fails may take an offered node, or leave TOMB_STONE in a
 slot of coll_pop and wait to be fed.  Nodes are never reused.  The slots to try start at a position drawn
 from a shared counter, an int that wraps: a negative position makes the first probe read outside the array,
 which is a step to Crash.

 History variables: draws counts the positions drawn; own says where a node is; stack lists the nodes from top; pusher and popper say which
 thread last filled a slot; at says in which slot a thread waits; and phase says where each thread stands
 between its calls.  When two calls meet in a slot, the step that makes them meet is where both take effect:
 the push, and right after it the pop.
 */
module EBStack {
  import opened Linearizability
  import opened StackSpecs
  import opened CppInts

  type Ptr = nat
  const NULL: Ptr := 0
  const TRY_TIMES := 4

  /** The content of a slot of coll_push or coll_pop. */
  datatype Slot = Free | Node(p: Ptr) | Tomb | Removed

  /** A node is its pusher's, on the stack, in a slot, or a popper's. */
  datatype Where = Nowhere | Hand(t: nat) | OnStack | InPush(i: nat) | InPop(i: nat) | Taken(t: nat)
  datatype Spot = Away | AtPush(i: nat) | AtPop(i: nat)

  datatype Counter = Counter(position: int, draws: nat)

  datatype Mem = Mem(
    top: Ptr, data: seq<int>, next: seq<Ptr>, push: seq<Slot>, pop: seq<Slot>, counter: Counter,
    own: seq<Where>, stack: seq<Ptr>, pusher: seq<nat>, popper: seq<nat>, at: seq<Spot>, phase: seq<Phase<Op, Ret>>)

  datatype PC =
    | PushRead | PushWrite | PushCas | AddPos | FeedLoad | FeedCas                    // push, try_add
    | OfferLoad | OfferCas | WaitLoad | Withdraw | ClearPush | RetPush
    | PopRead | PopCheck | PopNext | PopCas | RemPos | TakeLoad | TakeCas             // pop, try_remove
    | TombLoad | TombCas | TombWait | TombWithdraw | ClearPop | PopData | RetPop
    | PeekRead | PeekCheck | PeekData | RetPeek | RetEmpty
    | Crash

  /** pos and i are those of try_add and try_remove; p is the node read from a slot. */
  datatype Local = Idle | Busy(op: Op, pc: PC, node: Ptr, oldTop: Ptr, newTop: Ptr, pos: nat, i: nat, p: Ptr, ret: int)

  datatype State = State(mem: Mem, threads: seq<Local>, trace: seq<Event<Op, Ret>>)
  datatype Action = Invoke(t: nat, op: Op) | Continue(t: nat)

  /** n threads, k slots in each collision array. */
  function Init(n: nat, k: nat): State {
    State(Mem(NULL, [0], [NULL], seq(k, _ => Free), seq(k, _ => Free), Counter(0, 0),
              [Nowhere], [], seq(k, _ => 0), seq(k, _ => 0), seq(n, _ => Away), seq(n, _ => Quiet)),
          seq(n, _ => Idle), [])
  }

  // ---------------------------------------------------------------- reading and writing

  function Next(m: Mem, p: Ptr): Ptr { if p < |m.next| then m.next[p] else NULL }
  function Data(m: Mem, p: Ptr): int { if p < |m.data| then m.data[p] else 0 }
  function PushSlot(m: Mem, i: nat): Slot { if i < |m.push| then m.push[i] else Removed }
  function PopSlot(m: Mem, i: nat): Slot { if i < |m.pop| then m.pop[i] else Removed }
  function SetOwn(m: Mem, p: Ptr, w: Where): Mem { if p < |m.own| then m.(own := m.own[p := w]) else m }
  function SetPush(m: Mem, i: nat, s: Slot): Mem { if i < |m.push| then m.(push := m.push[i := s]) else m }
  function SetPop(m: Mem, i: nat, s: Slot): Mem { if i < |m.pop| then m.(pop := m.pop[i := s]) else m }
  function SetAt(m: Mem, t: nat, s: Spot): Mem { if t < |m.at| then m.(at := m.at[t := s]) else m }

  function Pusher(m: Mem, i: nat): nat { if i < |m.pusher| then m.pusher[i] else 0 }
  function Popper(m: Mem, i: nat): nat { if i < |m.popper| then m.popper[i] else 0 }
  function SetPusher(m: Mem, i: nat, t: nat): Mem { if i < |m.pusher| then m.(pusher := m.pusher[i := t]) else m }
  function SetPopper(m: Mem, i: nat, t: nat): Mem { if i < |m.popper| then m.(popper := m.popper[i := t]) else m }

  /** The slot that a probe reads. */
  function Index(m: Mem, th: Local): nat
    requires th.Busy?
  {
    if |m.push| > 0 then (th.pos + th.i) % |m.push| else 0
  }

  /** A 32-bit int after ++, which wraps. */
  function Increment(c: Counter): Counter {
    Counter(if c.position == 0x7fff_ffff then -0x8000_0000 else c.position + 1, c.draws + 1)
  }

  /** get_rand_position. */
  function Draw(m: Mem): int { if |m.push| > 0 then Remainder(m.counter.position, |m.push|) else 0 }

  /** The first probe is at the position drawn. */
  function StartAt(th: Local, pos: int, pc: PC): Local
    requires th.Busy?
  {
    if pos < 0 then th.(pc := Crash) else th.(pc := pc, pos := pos, i := 0)
  }

  /** One more slot, or `last` after TRY_TIMES of them. */
  function NextSlot(th: Local, again: PC, last: PC): Local
    requires th.Busy?
  {
    if th.i + 1 < TRY_TIMES then th.(i := th.i + 1, pc := again) else th.(i := 0, pc := last)
  }

  // ---------------------------------------------------------------- one step

  function Step(m: Mem, th: Local, t: nat): (Mem, Local, seq<Event<Op, Ret>>)
    requires th.Busy?
  {
    var x := Index(m, th);
    match th.pc
    // push
    case PushRead => (m, th.(pc := PushWrite, oldTop := m.top), [])
    case PushWrite => (if th.node < |m.next| then m.(next := m.next[th.node := th.oldTop]) else m, th.(pc := PushCas), [])
    case PushCas =>
      if m.top == th.oldTop then
        (SetOwn(m.(top := th.node, stack := [th.node] + m.stack), th.node, OnStack), th.(pc := RetPush), [Commit(t, th.op, Pushed)])
      else (m, th.(pc := AddPos), [])
    // try_add
    case AddPos => (m.(counter := Increment(m.counter)), StartAt(th, Draw(m), FeedLoad), [])
    case FeedLoad => (m, if PopSlot(m, x) == Tomb then th.(pc := FeedCas) else NextSlot(th, FeedLoad, OfferLoad), [])
    case FeedCas =>
      if PopSlot(m, x) == Tomb then
        (SetOwn(SetPop(m, x, Node(th.node)), th.node, InPop(x)), th.(pc := RetPush),
         [Commit(t, th.op, Pushed), Commit(Popper(m, x), Pop, Got(Data(m, th.node)))])
      else (m, NextSlot(th, FeedLoad, OfferLoad), [])
    case OfferLoad => (m, if PushSlot(m, x) == Free then th.(pc := OfferCas) else NextSlot(th, OfferLoad, PushRead), [])
    case OfferCas =>
      if PushSlot(m, x) == Free then
        (SetAt(SetPusher(SetOwn(SetPush(m, x, Node(th.node)), th.node, InPush(x)), x, t), t, AtPush(x)), th.(pc := WaitLoad), [])
      else (m, NextSlot(th, OfferLoad, PushRead), [])
    case WaitLoad => (m, th.(pc := if PushSlot(m, x) == Node(th.node) then Withdraw else ClearPush), [])
    case Withdraw =>
      if PushSlot(m, x) == Node(th.node) then
        (SetAt(SetOwn(SetPush(m, x, Free), th.node, Hand(t)), t, Away), th.(pc := PushRead), [])
      else (m, th.(pc := ClearPush), [])
    case ClearPush => (SetAt(SetPush(m, x, Free), t, Away), th.(pc := RetPush), [])
    case RetPush => (m, Idle, [Return(t, Pushed)])
    // pop
    case PopRead =>
      if m.top == NULL then (m, th.(pc := RetEmpty), [Commit(t, th.op, Empty)])
      else (m, th.(pc := PopCheck, oldTop := m.top), [])
    case PopCheck => (m, th.(pc := if m.top == th.oldTop then PopNext else PopRead), [])
    case PopNext => (m, th.(pc := PopCas, newTop := Next(m, th.oldTop)), [])
    case PopCas =>
      if m.top == th.oldTop then
        (SetOwn(m.(top := th.newTop, stack := if m.stack == [] then [] else m.stack[1..]), th.oldTop, Taken(t)),
         th.(pc := PopData, p := th.oldTop), [Commit(t, th.op, Got(Data(m, th.oldTop)))])
      else (m, th.(pc := RemPos), [])
    // try_remove
    case RemPos => (m.(counter := Increment(m.counter)), StartAt(th, Draw(m), TakeLoad), [])
    case TakeLoad =>
      (m, if PushSlot(m, x).Node? then th.(pc := TakeCas, p := PushSlot(m, x).p) else NextSlot(th, TakeLoad, TombLoad), [])
    case TakeCas =>
      if PushSlot(m, x) == Node(th.p) then
        (SetOwn(SetPush(m, x, Removed), th.p, Taken(t)), th.(pc := PopData),
         [Commit(Pusher(m, x), Push(Data(m, th.p)), Pushed), Commit(t, th.op, Got(Data(m, th.p)))])
      else (m, NextSlot(th, TakeLoad, TombLoad), [])
    case TombLoad => (m, if PopSlot(m, x) == Free then th.(pc := TombCas) else NextSlot(th, TombLoad, PopRead), [])
    case TombCas =>
      if PopSlot(m, x) == Free then
        (SetAt(SetPopper(SetPop(m, x, Tomb), x, t), t, AtPop(x)), th.(pc := TombWait), [])
      else (m, NextSlot(th, TombLoad, PopRead), [])
    case TombWait =>
      (m, if PopSlot(m, x) == Tomb then th.(pc := TombWithdraw)
          else th.(pc := ClearPop, p := if PopSlot(m, x).Node? then PopSlot(m, x).p else NULL), [])
    case TombWithdraw =>
      if PopSlot(m, x) == Tomb then (SetAt(SetPop(m, x, Free), t, Away), th.(pc := PopRead), [])
      else (m, th.(pc := TombWait), [])
    case ClearPop => (SetAt(SetOwn(SetPop(m, x, Free), th.p, Taken(t)), t, Away), th.(pc := PopData), [])
    case PopData => (m, th.(pc := RetPop, ret := Data(m, th.p)), [])
    case RetPop => (m, Idle, [Return(t, Got(th.ret))])
    // peekTop
    case PeekRead =>
      if m.top == NULL then (m, th.(pc := RetEmpty), [Commit(t, th.op, Empty)])
      else (m, th.(pc := PeekCheck, oldTop := m.top), [])
    case PeekCheck =>
      if m.top == th.oldTop then (m, th.(pc := PeekData), [Commit(t, th.op, Got(Data(m, th.oldTop)))])
      else (m, th.(pc := PeekRead), [])
    case PeekData => (m, th.(pc := RetPeek, ret := Data(m, th.oldTop)), [])
    case RetPeek => (m, Idle, [Return(t, Got(th.ret))])
    case RetEmpty => (m, Idle, [Return(t, Empty)])
    case Crash => (m, th, [])
  }

  /** phase after one event, and after several. */
  function Moved(phase: seq<Phase<Op, Ret>>, e: Event<Op, Ret>): seq<Phase<Op, Ret>> {
    if e.t < |phase| then phase[e.t := Advance(phase[e.t], e)] else phase
  }

  function MovedBy(phase: seq<Phase<Op, Ret>>, es: seq<Event<Op, Ret>>): seq<Phase<Op, Ret>>
    decreases |es|
  {
    if es == [] then phase else MovedBy(Moved(phase, es[0]), es[1..])
  }

  /** Entering an operation; push first gets a fresh node. */
  function Enter(m: Mem, op: Op, t: nat): (Mem, Local) {
    match op
    case Push(v) =>
      (m.(data := m.data + [v], next := m.next + [NULL], own := m.own + [Hand(t)]),
       Busy(op, PushRead, |m.own|, NULL, NULL, 0, 0, NULL, 0))
    case Pop => (m, Busy(op, PopRead, NULL, NULL, NULL, 0, 0, NULL, 0))
    case Peek => (m, Busy(op, PeekRead, NULL, NULL, NULL, 0, 0, NULL, 0))
  }

  function Apply(s: State, act: Action): State {
    var t := act.t;
    if t >= |s.threads| then s
    else if act.Invoke? && s.threads[t].Idle? then
      var (m, th') := Enter(s.mem, act.op, t);
      State(m.(phase := MovedBy(m.phase, [Call(t, act.op)])), s.threads[t := th'], s.trace + [Call(t, act.op)])
    else if act.Continue? && s.threads[t].Busy? then
      var (m, th', es) := Step(s.mem, s.threads[t], t);
      State(m.(phase := MovedBy(m.phase, es)), s.threads[t := th'], s.trace + es)
    else s
  }

  function Exec(s: State, sched: seq<Action>): State {
    if sched == [] then s else Apply(Exec(s, sched[..|sched| - 1]), sched[|sched| - 1])
  }
}
