/**
 The Michael-Scott queue of queue.h, one access to shared memory a step.

 dequeue returns "empty" as soon as it reads a null successor, before it looks at head again; the order
 of its checks is the source's.  Nodes are never reused.  History variables: chain lists every node ever
 linked, hpos and tpos are the positions of head and tail in it, and a thread remembers in pos the
 position of the node it is working on.
 */
module Queue {
  import opened Linearizability

  type Ptr = nat
  const NULL: Ptr := 0

  datatype Op = Enqueue(v: int) | Dequeue
  datatype Ret = Enqueued | Empty | Got(v: int)

  function QueueSpec(a: seq<int>, op: Op): (seq<int>, Ret) {
    match op
    case Enqueue(v) => (a + [v], Enqueued)
    case Dequeue => if a == [] then (a, Empty) else (a[1..], Got(a[0]))
  }

  datatype Mem = Mem(
    head: Ptr, tail: Ptr, data: seq<int>, next: seq<Ptr>,
    chain: seq<Ptr>, hpos: nat, tpos: nat)

  datatype PC =
    | ReadTail | ChkTail | ReadTailNext | ChkTail2 | HelpTail | CasNext | SwingTail        // enqueue
    | ReadHead | ChkHead | ReadNext | ChkHead2 | ReadTail2 | PushTail | ReadData | CasHead // dequeue
    | RetEnq | RetEmpty | RetGot

  /** p is the source's pTail or pHead, n its successor as read, v the value read. */
  datatype Local = Idle | Busy(op: Op, pc: PC, node: Ptr, p: Ptr, n: Ptr, v: int, pos: nat)

  datatype State = State(mem: Mem, threads: seq<Local>, trace: seq<Event<Op, Ret>>)
  datatype Action = Invoke(t: nat, op: Op) | Continue(t: nat)

  /** A new queue holds one dummy node, node 1. */
  function Init(n: nat): State {
    State(Mem(1, 1, [0, 0], [NULL, NULL], [1], 0, 0), seq(n, _ => Idle), [])
  }

  function Next(m: Mem, p: Ptr): Ptr { if p < |m.next| then m.next[p] else NULL }
  function Data(m: Mem, p: Ptr): int { if p < |m.data| then m.data[p] else 0 }

  /** The tail compare-and-swap of lines 168, 182 and 220. */
  function SwingTailTo(m: Mem, expected: Ptr, node: Ptr): Mem {
    if m.tail == expected then m.(tail := node, tpos := m.tpos + 1) else m
  }

  function Step(m: Mem, th: Local, t: nat): (Mem, Local, seq<Event<Op, Ret>>)
    requires th.Busy?
  {
    var p, n := th.p, th.n;
    match th.pc
    // enqueue
    case ReadTail => (m, th.(pc := ChkTail, p := m.tail, pos := m.tpos), [])
    case ChkTail => (m, th.(pc := if m.tail == p then ReadTailNext else ReadTail), [])
    case ReadTailNext => (m, th.(pc := ChkTail2, n := Next(m, p)), [])
    case ChkTail2 => (m, th.(pc := if m.tail != p then ReadTail else if n != NULL then HelpTail else CasNext), [])
    case HelpTail => (SwingTailTo(m, p, n), th.(pc := ReadTail), [])
    case CasNext =>
      if Next(m, p) == NULL && p < |m.next| then
        (m.(next := m.next[p := th.node], chain := m.chain + [th.node]), th.(pc := SwingTail), [Commit(t, th.op, Enqueued)])
      else (m, th.(pc := ReadTail), [])
    case SwingTail => (SwingTailTo(m, p, th.node), th.(pc := RetEnq), [])
    // dequeue
    case ReadHead => (m, th.(pc := ChkHead, p := m.head, pos := m.hpos), [])
    case ChkHead => (m, th.(pc := if m.head == p then ReadNext else ReadHead), [])
    case ReadNext =>
      if Next(m, p) == NULL then (m, th.(pc := RetEmpty, n := NULL), [Commit(t, th.op, Empty)])
      else (m, th.(pc := ChkHead2, n := Next(m, p)), [])
    case ChkHead2 => (m, th.(pc := if m.head == p then ReadTail2 else ReadHead), [])
    case ReadTail2 => (m, th.(pc := if m.tail == p then PushTail else ReadData), [])
    case PushTail => (SwingTailTo(m, p, n), th.(pc := ReadHead), [])
    case ReadData => (m, th.(pc := CasHead, v := Data(m, n)), [])
    case CasHead =>
      if m.head == p then
        (m.(head := n, hpos := m.hpos + 1), th.(pc := RetGot), [Commit(t, th.op, Got(th.v))])
      else (m, th.(pc := ReadHead), [])
    // returning
    case RetEnq => (m, Idle, [Return(t, Enqueued)])
    case RetEmpty => (m, Idle, [Return(t, Empty)])
    case RetGot => (m, Idle, [Return(t, Got(th.v))])
  }

  /** Entering an operation; enqueue first gets a fresh node. */
  function Enter(m: Mem, op: Op): (Mem, Local) {
    match op
    case Enqueue(v) => (m.(data := m.data + [v], next := m.next + [NULL]), Busy(op, ReadTail, |m.data|, NULL, NULL, 0, 0))
    case Dequeue => (m, Busy(op, ReadHead, NULL, NULL, NULL, 0, 0))
  }

  function Apply(s: State, act: Action): State {
    var t := act.t;
    if t >= |s.threads| then s
    else if act.Invoke? && s.threads[t].Idle? then
      var (m', th') := Enter(s.mem, act.op);
      State(m', s.threads[t := th'], s.trace + [Call(t, act.op)])
    else if act.Continue? && s.threads[t].Busy? then
      var (m', th', es) := Step(s.mem, s.threads[t], t);
      State(m', s.threads[t := th'], s.trace + es)
    else s
  }

  function Exec(s: State, sched: seq<Action>): State {
    if sched == [] then s else Apply(Exec(s, sched[..|sched| - 1]), sched[|sched| - 1])
  }

  // ---------------------------------------------------------------- invariants

  /** The node that the i-th node of the chain links to. */
  function After(m: Mem, i: nat): Ptr {
    if i + 1 < |m.chain| then m.chain[i + 1] else NULL
  }

  /** head never passes tail, and tail is the last node or the one before it. */
  ghost predicate MemInv(m: Mem) {
    && |m.data| == |m.next| && m.hpos <= m.tpos < |m.chain| <= m.tpos + 2
    && (forall i :: 0 <= i < |m.chain| ==> 0 < m.chain[i] < |m.data|)
    && (forall i, j :: 0 <= i < j < |m.chain| ==> m.chain[i] != m.chain[j])
    && m.chain[m.hpos] == m.head && m.chain[m.tpos] == m.tail
    && (forall i {:trigger m.next[m.chain[i]]} :: 0 <= i < |m.chain| ==> m.next[m.chain[i]] == After(m, i))
  }

  predicate Owns(th: Local) {
    th.Busy? && th.op.Enqueue? && !th.pc.SwingTail? && !th.pc.RetEnq?
  }

  /** The fresh node of th, or NULL. */
  function OwnNode(th: Local): Ptr {
    if Owns(th) then th.node else NULL
  }

  ghost predicate ThreadInv(m: Mem, th: Local) {
    th.Busy? ==>
      var at := th.pos < |m.chain| && m.chain[th.pos] == th.p;
      var before := at && th.pos + 1 < |m.chain| && m.chain[th.pos + 1] == th.n;
      && (Owns(th) ==> 0 < th.node < |m.data| && th.node !in m.chain && m.data[th.node] == th.op.v && Next(m, th.node) == NULL)
      && match th.pc
         case ReadTail => Owns(th)
         case ChkTail => Owns(th) && at && th.pos <= m.tpos
         case ReadTailNext => Owns(th) && at && th.pos <= m.tpos
         case ChkTail2 => Owns(th) && at && th.pos <= m.tpos && (th.n != NULL ==> before)
         case HelpTail => Owns(th) && before && th.pos <= m.tpos
         case CasNext => Owns(th) && at && th.pos <= m.tpos
         case SwingTail => th.op.Enqueue? && at && th.pos + 1 < |m.chain| && m.chain[th.pos + 1] == th.node && th.pos <= m.tpos
         case ReadHead => th.op.Dequeue?
         case ChkHead => th.op.Dequeue? && at && th.pos <= m.hpos
         case ReadNext => th.op.Dequeue? && at && th.pos <= m.hpos
         case ChkHead2 => th.op.Dequeue? && before && th.pos <= m.hpos
         case ReadTail2 => th.op.Dequeue? && before && th.pos <= m.hpos
         case PushTail => th.op.Dequeue? && before
         case ReadData => th.op.Dequeue? && before && th.pos <= m.hpos && th.pos < m.tpos
         case CasHead => th.op.Dequeue? && before && th.pos <= m.hpos && th.pos < m.tpos && th.v == Data(m, th.n)
         case RetEnq => th.op.Enqueue?
         case RetEmpty => th.op.Dequeue?
         case RetGot => th.op.Dequeue?
  }

  /** What a step of a thread whose fresh node is own may do: link that node last, and move head and
      tail forward. */
  ghost predicate Rely(m: Mem, m': Mem, own: Ptr) {
    && |m.data| == |m.next| && |m'.data| == |m'.next| && |m.data| <= |m'.data|
    && (forall x :: 0 <= x < |m.data| ==> m'.data[x] == m.data[x])
    && (forall x :: 0 < x < |m.data| && x !in m.chain && x != own ==> m'.next[x] == m.next[x])
    && (m'.chain == m.chain || m'.chain == m.chain + [own])
    && m.hpos <= m'.hpos && m.tpos <= m'.tpos
  }

  lemma ThreadStable(m: Mem, m': Mem, own: Ptr, th: Local)
    requires MemInv(m) && Rely(m, m', own) && ThreadInv(m, th) && (Owns(th) ==> th.node != own)
    ensures ThreadInv(m', th)
  {
  }

  ghost predicate StepKept(m: Mem, th: Local, t: nat)
    requires th.Busy?
  {
    var (m', th', _) := Step(m, th, t);
    MemInv(m') && Rely(m, m', OwnNode(th)) && ThreadInv(m', th') && (Owns(th') ==> Owns(th) && th'.node == th.node)
  }

  lemma LinkAt(m: Mem, i: nat)
    requires MemInv(m) && i < |m.chain|
    ensures 0 < m.chain[i] < |m.next|
    ensures Next(m, m.chain[i]) == NULL <==> i + 1 == |m.chain|
    ensures i + 1 < |m.chain| ==> Next(m, m.chain[i]) == m.chain[i + 1]
  {
    if i + 1 < |m.chain| { assert m.chain[i + 1] != NULL; }
  }

  lemma EnqueueReadsKeep(m: Mem, th: Local, t: nat)
    requires MemInv(m) && ThreadInv(m, th) && th.Busy?
    requires th.pc.ReadTail? || th.pc.ChkTail? || th.pc.ReadTailNext? || th.pc.ChkTail2? || th.pc.RetEnq?
    ensures StepKept(m, th, t)
  {
    if th.pc.ReadTailNext? { LinkAt(m, th.pos); }
  }

  lemma SwingTailKeeps(m: Mem, th: Local, t: nat)
    requires MemInv(m) && ThreadInv(m, th) && th.Busy? && (th.pc.HelpTail? || th.pc.SwingTail?)
    ensures StepKept(m, th, t)
  {
    if m.tail == th.p { assert th.pos == m.tpos; }
  }

  lemma CasNextKeeps(m: Mem, th: Local, t: nat)
    requires MemInv(m) && ThreadInv(m, th) && th.Busy? && th.pc.CasNext?
    ensures StepKept(m, th, t)
  {
    LinkAt(m, th.pos);
  }

  lemma DequeueReadsKeep(m: Mem, th: Local, t: nat)
    requires MemInv(m) && ThreadInv(m, th) && th.Busy?
    requires th.pc.ReadHead? || th.pc.ChkHead? || th.pc.ReadNext? || th.pc.ChkHead2? || th.pc.ReadTail2? ||
             th.pc.ReadData? || th.pc.RetEmpty? || th.pc.RetGot?
    ensures var (m', th', _) := Step(m, th, t); m' == m && ThreadInv(m, th') && !Owns(th) && !Owns(th')
  {
    if th.pc.ReadNext? { LinkAt(m, th.pos); }
  }

  lemma NothingKeeps(m: Mem, own: Ptr)
    requires MemInv(m)
    ensures Rely(m, m, own)
  {
  }

  lemma PushTailKeeps(m: Mem, th: Local, t: nat)
    requires MemInv(m) && ThreadInv(m, th) && th.Busy? && th.pc.PushTail?
    ensures StepKept(m, th, t)
  {
    if m.tail == th.p { assert th.pos == m.tpos; }
  }

  lemma CasHeadKeeps(m: Mem, th: Local, t: nat)
    requires MemInv(m) && ThreadInv(m, th) && th.Busy? && th.pc.CasHead?
    ensures StepKept(m, th, t)
  {
    if m.head == th.p { assert th.pos == m.hpos; }
  }

  lemma StepKeeps(m: Mem, th: Local, t: nat)
    requires MemInv(m) && ThreadInv(m, th) && th.Busy?
    ensures StepKept(m, th, t)
  {
    if th.pc.CasHead? { CasHeadKeeps(m, th, t); }
    else if th.pc.PushTail? { PushTailKeeps(m, th, t); }
    else if th.op.Dequeue? {
      DequeueReadsKeep(m, th, t);
      NothingKeeps(m, NULL);
    }
    else if th.pc.CasNext? { CasNextKeeps(m, th, t); }
    else if th.pc.HelpTail? || th.pc.SwingTail? { SwingTailKeeps(m, th, t); }
    else { EnqueueReadsKeep(m, th, t); }
  }

  // ---------------------------------------------------------------- what a client sees

  function Values(data: seq<int>, s: seq<Ptr>): seq<int> {
    seq(|s|, i requires 0 <= i < |s| => if s[i] < |data| then data[s[i]] else 0)
  }

  /** The values after head, oldest first. */
  function Contents(m: Mem): seq<int>
    requires m.hpos < |m.chain|
  {
    Values(m.data, m.chain[m.hpos + 1..])
  }

  function PhaseNow(th: Local): Phase<Op, Ret> {
    match th
    case Idle => Quiet
    case Busy(op, pc, _, _, _, v, _) =>
      match pc
      case SwingTail => Done(op, Enqueued)
      case RetEnq => Done(op, Enqueued)
      case RetEmpty => Done(op, Empty)
      case RetGot => Done(op, Got(v))
      case _ => Pending(op, {})
  }

  ghost predicate Explains(m: Mem, p: Phase<Op, Ret>, t: nat, es: seq<Event<Op, Ret>>, m': Mem, p': Phase<Op, Ret>)
    requires m.hpos < |m.chain| && m'.hpos < |m'.chain|
  {
    if es == [] then Contents(m') == Contents(m) && p' == p
    else
      && |es| == 1 && es[0].t == t && !es[0].Observe? && Advance(p, es[0]) == p'
      && (if es[0].Commit? then QueueSpec(Contents(m), es[0].op) == (Contents(m'), es[0].ret)
          else Contents(m') == Contents(m))
  }

  /** Each instruction either is invisible to clients or is where its call takes effect.  In particular
      a dequeue that reads a null successor finds the queue empty at that very moment, although it does
      not look at head again. */
  lemma StepRefinesQueue(m: Mem, th: Local, t: nat)
    requires MemInv(m) && ThreadInv(m, th) && th.Busy?
    ensures StepKept(m, th, t)
    ensures var (m', th', es) := Step(m, th, t); Explains(m, PhaseNow(th), t, es, m', PhaseNow(th'))
  {
    StepKeeps(m, th, t);
    if th.pc.CasNext? { CasNextRefines(m, th, t); }
    else if th.pc.ReadNext? { ReadNextRefines(m, th, t); }
    else if th.pc.CasHead? { CasHeadRefines(m, th, t); }
    else { QuietStep(m, th, t); }
  }

  lemma CasNextRefines(m: Mem, th: Local, t: nat)
    requires MemInv(m) && ThreadInv(m, th) && th.Busy? && th.pc.CasNext?
    ensures var (m', th', es) := Step(m, th, t); Explains(m, PhaseNow(th), t, es, m', PhaseNow(th'))
  {
    var (m', th', es) := Step(m, th, t);
    if es != [] {
      assert m'.chain[m'.hpos + 1..] == m.chain[m.hpos + 1..] + [th.node];
      assert Contents(m') == Contents(m) + [th.op.v];
    }
  }

  lemma ReadNextRefines(m: Mem, th: Local, t: nat)
    requires MemInv(m) && ThreadInv(m, th) && th.Busy? && th.pc.ReadNext?
    ensures var (m', th', es) := Step(m, th, t); Explains(m, PhaseNow(th), t, es, m', PhaseNow(th'))
  {
    LinkAt(m, th.pos);
  }

  lemma CasHeadRefines(m: Mem, th: Local, t: nat)
    requires MemInv(m) && ThreadInv(m, th) && th.Busy? && th.pc.CasHead?
    ensures var (m', th', es) := Step(m, th, t);
      m'.hpos < |m'.chain| && Explains(m, PhaseNow(th), t, es, m', PhaseNow(th'))
  {
    if m.head == th.p {
      assert th.pos == m.hpos;
      var rest := m.chain[m.hpos + 1..];
      assert m.chain[m.hpos + 2..] == rest[1..] && rest[0] == th.n;
      assert Values(m.data, rest[1..]) == Values(m.data, rest)[1..];
    }
  }

  lemma QuietStep(m: Mem, th: Local, t: nat)
    requires m.hpos < |m.chain| && th.Busy? && !th.pc.CasNext? && !th.pc.CasHead? && !th.pc.ReadNext?
    ensures var (m', th', es) := Step(m, th, t);
      m'.hpos < |m'.chain| && Explains(m, PhaseNow(th), t, es, m', PhaseNow(th'))
  {
  }

  // ---------------------------------------------------------------- whole runs

  ghost predicate ThreadsInv(m: Mem, threads: seq<Local>) {
    && (forall t :: 0 <= t < |threads| ==> ThreadInv(m, threads[t]))
    && (forall t, u :: 0 <= t < u < |threads| && Owns(threads[t]) && Owns(threads[u]) ==> threads[t].node != threads[u].node)
  }

  ghost predicate Inv(s: State) {
    && MemInv(s.mem) && ThreadsInv(s.mem, s.threads)
    && Legal(QueueSpec, [], s.trace)
    && ValueAfter(QueueSpec, [], s.trace) == Contents(s.mem)
    && forall t: nat :: PhaseOf(s.trace, t) == if t < |s.threads| then PhaseNow(s.threads[t]) else Quiet
  }

  lemma ThreadsKept(m: Mem, m': Mem, threads: seq<Local>, t: nat, th': Local, own: Ptr)
    requires MemInv(m) && ThreadsInv(m, threads) && t < |threads| && Rely(m, m', own) && ThreadInv(m', th')
    requires forall u :: 0 <= u < |threads| && u != t && Owns(threads[u]) ==> threads[u].node != own
    requires Owns(th') ==> th'.node == own
    ensures ThreadsInv(m', threads[t := th'])
  {
    var threads' := threads[t := th'];
    forall u | 0 <= u < |threads'| ensures ThreadInv(m', threads'[u]) {
      if u != t { ThreadStable(m, m', own, threads[u]); }
    }
  }

  lemma EnterKeeps(m: Mem, op: Op)
    requires MemInv(m)
    ensures var (m', th') := Enter(m, op); MemInv(m') && Rely(m, m', |m.data|) && ThreadInv(m', th')
  {
  }

  lemma EnterSameContents(m: Mem, op: Op)
    requires MemInv(m)
    ensures Contents(Enter(m, op).0) == Contents(m)
  {
    var m' := Enter(m, op).0;
    var rest := m.chain[m.hpos + 1..];
    assert forall i :: 0 <= i < |rest| ==> rest[i] == m.chain[m.hpos + 1 + i];
    assert Values(m'.data, rest) == Values(m.data, rest);
  }

  lemma InvokeKeeps(s: State, t: nat, op: Op)
    requires Inv(s) && t < |s.threads| && s.threads[t].Idle?
    ensures Inv(Apply(s, Invoke(t, op)))
  {
    var (m', th') := Enter(s.mem, op);
    EnterKeeps(s.mem, op);
    EnterSameContents(s.mem, op);
    ThreadsKept(s.mem, m', s.threads, t, th', |s.mem.data|);
    AppendEvent(QueueSpec, [], s.trace, Call(t, op));
  }

  lemma ContinueKeeps(s: State, t: nat)
    requires Inv(s) && t < |s.threads| && s.threads[t].Busy?
    ensures Inv(Apply(s, Continue(t)))
  {
    var th := s.threads[t];
    StepRefinesQueue(s.mem, th, t);
    var (m', th', es) := Step(s.mem, th, t);
    ThreadsKept(s.mem, m', s.threads, t, th', OwnNode(th));
    if es == [] { assert s.trace + es == s.trace; }
    else {
      assert es == [es[0]];
      AppendEvent(QueueSpec, [], s.trace, es[0]);
    }
  }

  lemma ApplyKeeps(s: State, act: Action)
    requires Inv(s)
    ensures Inv(Apply(s, act))
  {
    if act.t < |s.threads| {
      if act.Invoke? && s.threads[act.t].Idle? { InvokeKeeps(s, act.t, act.op); }
      if act.Continue? && s.threads[act.t].Busy? { ContinueKeeps(s, act.t); }
    }
  }

  lemma {:induction false} RunKeeps(n: nat, sched: seq<Action>)
    ensures Inv(Exec(Init(n), sched))
  {
    if sched == [] {
      assert Contents(Init(n).mem) == [];
    } else {
      RunKeeps(n, sched[..|sched| - 1]);
      ApplyKeeps(Exec(Init(n), sched[..|sched| - 1]), sched[|sched| - 1]);
    }
  }

  /** In every interleaving the calls behave as if each took effect at once on a FIFO sequence. */
  lemma QueueIsLinearizable(n: nat, sched: seq<Action>)
    ensures Linearizable(QueueSpec, [], Exec(Init(n), sched).trace)
  {
    RunKeeps(n, sched);
    EffectsLinearize(QueueSpec, [], Exec(Init(n), sched).trace);
  }

  /** In every reachable state head has not passed tail, and tail is last or next to last. */
  lemma TailLagsByOne(n: nat, sched: seq<Action>)
    ensures var m := Exec(Init(n), sched).mem;
      && m.hpos <= m.tpos < |m.chain| && m.chain[m.hpos] == m.head && m.chain[m.tpos] == m.tail
      && 0 < m.tail < |m.next|
      && (m.next[m.tail] == NULL || (m.next[m.tail] < |m.next| && m.next[m.next[m.tail]] == NULL))
  {
    RunKeeps(n, sched);
    var m := Exec(Init(n), sched).mem;
    LinkAt(m, m.tpos);
    if m.tpos + 1 < |m.chain| { LinkAt(m, m.tpos + 1); }
  }
}
