/**
 The deque as it is on the heap: node objects with left and right fields, an anchor that refers to two of them,
 and threads whose locals refer to nodes.  Links are read and written in place.

 What module Deque calls history is ghost here, so no instruction depends on it.  A ghost number in each node
 says which pointer of the machine it is; Memory is the machine's view of the objects.  The instructions
 dereference no null pointer, because the invariant of module DequeProof holds when they run.
 */
module DequeObject {
  import opened Linearizability
  import opened DequeSpecs
  import M = Deque
  import P = DequeProof
  import R = DequeResults

  class Node {
    ghost const id: nat
    const data: int
    var left: Node?
    var right: Node?

    constructor (data: int, ghost id: nat)
      ensures this.data == data && this.id == id && left == null && right == null
    {
      this.data, this.id, left, right := data, id, null, null;
    }
  }

  datatype Anchor = Anchor(l: Node?, r: Node?, st: M.Status)

  /** answer is that of the last call. */
  datatype Local =
    | Idle(answer: Ret)
    | Busy(op: Op, pc: M.PC, node: Node?, a: Anchor, prev: Node?, nbr: Node?, pushed: bool)

  ghost function Num(x: Node?): M.Ptr { if x == null then M.NULL else x.id }
  ghost function Seen(a: Anchor): M.Anchor { M.Anchor(Num(a.l), Num(a.r), a.st) }

  ghost function Thread(th: Local, snap: seq<M.Ptr>): M.Local {
    if th.Idle? then M.Idle
    else M.Busy(th.op, th.pc, Num(th.node), Seen(th.a), snap, Num(th.prev), Num(th.nbr), th.pushed)
  }

  ghost function Threads(threads: seq<Local>, snaps: seq<seq<M.Ptr>>): seq<M.Local>
    requires |snaps| == |threads|
  {
    seq(|threads|, t requires 0 <= t < |threads| => Thread(threads[t], snaps[t]))
  }

  function End(a: Anchor, d: Side): Node? { if d.Left? then a.l else a.r }
  function SetEnd(a: Anchor, d: Side, x: Node?): Anchor { if d.Left? then a.(l := x) else a.(r := x) }

  /** Leaving stabilize. */
  function Leave(th: Local): Local
    requires th.Busy?
  {
    th.(pc := if th.pushed then M.RetPush else M.Snap)
  }

  /** The instructions that compare the anchor, read now, with the thread's copy. */
  predicate Checks(pc: M.PC) {
    pc.ChkOne? || pc.ChkL? || pc.ChkR? || pc.ChkA? || pc.ChkAgain? || pc.StL? || pc.StR? || pc.StA? || pc.StEnd? || pc.StA2? || pc.StA3?
  }

  function Checked(th: Local, now: Anchor): Local
    requires th.Busy? && Checks(th.pc)
  {
    var a, e := th.a, M.PushSide(th.a.st);
    match th.pc
    case ChkOne => th.(pc := if End(now, th.op.d) == End(a, th.op.d) then M.CasOne else M.Snap)
    case ChkL => th.(pc := if now.l == a.l then M.ChkR else M.Snap)
    case ChkR => th.(pc := if now.r == a.r then M.ChkA else M.Snap)
    case ChkA => th.(pc := if now == a then M.ReadPrev else M.Snap)
    case ChkAgain => th.(pc := if now.r != a.r then M.Snap else if th.prev == null then M.Crash else M.CasPop)
    case StL => if now.l == a.l then th.(pc := M.StR) else Leave(th)
    case StR => if now.r != a.r then Leave(th) else th.(pc := if a.r == null || a.l == null then M.Crash else M.StA)
    case StA => if now == a then th.(pc := M.StPrev) else Leave(th)
    case StEnd => if End(now, e) == End(a, e) then th.(pc := M.StA2) else Leave(th)
    case StA2 => if now == a then th.(pc := M.StNbr) else Leave(th)
    case StA3 => if now == a then th.(pc := M.StFix) else Leave(th)
  }

  ghost predicate CanCheck(nodes: seq<Node>, m: M.Mem, now: Anchor, th: Local) {
    In(nodes, now.l) && In(nodes, now.r) && m.anchor == Seen(now) && InAll(nodes, th) && th.Busy? && Checks(th.pc)
  }

  ghost predicate IsStep(nodes: seq<Node>, m: M.Mem, now: Anchor, th: Local, snap: seq<M.Ptr>, t: nat)
    requires th.Busy? && Checks(th.pc)
  {
    InAll(nodes, Checked(th, now)) && (m, Thread(Checked(th, now), snap), []) == M.Step(m, Thread(th, snap), t)
  }

  lemma PopCheckIsStep(nodes: seq<Node>, m: M.Mem, now: Anchor, th: Local, snap: seq<M.Ptr>, t: nat)
    requires CanCheck(nodes, m, now, th) && (th.pc.ChkOne? || th.pc.ChkL? || th.pc.ChkR? || th.pc.ChkA? || th.pc.ChkAgain?)
    ensures IsStep(nodes, m, now, th, snap, t)
  {
    assert now.l == th.a.l <==> Num(now.l) == Num(th.a.l);
    assert now.r == th.a.r <==> Num(now.r) == Num(th.a.r);
  }

  lemma EarlyCheckIsStep(nodes: seq<Node>, m: M.Mem, now: Anchor, th: Local, snap: seq<M.Ptr>, t: nat)
    requires CanCheck(nodes, m, now, th) && (th.pc.StL? || th.pc.StR? || th.pc.StA?)
    ensures IsStep(nodes, m, now, th, snap, t)
  {
    assert now.l == th.a.l <==> Num(now.l) == Num(th.a.l);
    assert now.r == th.a.r <==> Num(now.r) == Num(th.a.r);
  }

  lemma EndCheckIsStep(nodes: seq<Node>, m: M.Mem, now: Anchor, th: Local, snap: seq<M.Ptr>, t: nat)
    requires CanCheck(nodes, m, now, th) && th.pc.StEnd?
    ensures IsStep(nodes, m, now, th, snap, t)
  {
    assert now.l == th.a.l <==> Num(now.l) == Num(th.a.l);
    assert now.r == th.a.r <==> Num(now.r) == Num(th.a.r);
  }

  lemma LateCheckIsStep(nodes: seq<Node>, m: M.Mem, now: Anchor, th: Local, snap: seq<M.Ptr>, t: nat)
    requires CanCheck(nodes, m, now, th) && (th.pc.StA2? || th.pc.StA3?)
    ensures IsStep(nodes, m, now, th, snap, t)
  {
    assert now.l == th.a.l <==> Num(now.l) == Num(th.a.l);
    assert now.r == th.a.r <==> Num(now.r) == Num(th.a.r);
  }

  lemma CheckIsStep(nodes: seq<Node>, m: M.Mem, now: Anchor, th: Local, snap: seq<M.Ptr>, t: nat)
    requires CanCheck(nodes, m, now, th)
    ensures IsStep(nodes, m, now, th, snap, t)
  {
    if th.pc.ChkOne? || th.pc.ChkL? || th.pc.ChkR? || th.pc.ChkA? || th.pc.ChkAgain? { PopCheckIsStep(nodes, m, now, th, snap, t); }
    else if th.pc.StL? || th.pc.StR? || th.pc.StA? { EarlyCheckIsStep(nodes, m, now, th, snap, t); }
    else if th.pc.StEnd? { EndCheckIsStep(nodes, m, now, th, snap, t); }
    else { LateCheckIsStep(nodes, m, now, th, snap, t); }
  }

  /** The node whose link is read, the side of that link, and what follows. */
  function Base(th: Local): Node?
    requires th.Busy?
  {
    if th.pc.ReadPrev? then End(th.a, th.op.d) else if th.pc.StPrev? then End(th.a, M.PushSide(th.a.st)) else th.prev
  }

  function LinkSide(th: Local): Side
    requires th.Busy?
  {
    var d := if th.pc.ReadPrev? then th.op.d else M.PushSide(th.a.st);
    if th.pc.StNbr? then d else if d.Left? then Right else Left
  }

  function Linked(th: Local, y: Node?): Local
    requires th.Busy?
  {
    if th.pc.ReadPrev? then th.(pc := M.ChkAgain, prev := y)
    else if th.pc.StPrev? then th.(pc := if y == null then M.Crash else M.StEnd, prev := y)
    else th.(pc := if y != End(th.a, M.PushSide(th.a.st)) then M.StA3 else M.StDone, nbr := y)
  }

  /** x is null, or the node of these that its number says. */
  ghost predicate In(nodes: seq<Node>, x: Node?) {
    x != null ==> 0 < x.id <= |nodes| && nodes[x.id - 1] == x
  }

  ghost predicate InAll(nodes: seq<Node>, th: Local) {
    th.Busy? ==> In(nodes, th.node) && In(nodes, th.a.l) && In(nodes, th.a.r) && In(nodes, th.prev) && In(nodes, th.nbr)
  }

  /** Node number p is what the machine says it is. */
  ghost predicate NodeOk(nodes: seq<Node>, p: M.Ptr, m: M.Mem)
    requires 0 < p <= |nodes| && |m.data| == |m.left| == |m.right| == |nodes| + 1
    reads nodes
  {
    var x := nodes[p - 1];
    && x.id == p && x.data == m.data[p]
    && In(nodes, x.left) && Num(x.left) == m.left[p]
    && In(nodes, x.right) && Num(x.right) == m.right[p]
  }

  ghost predicate NodesOk(nodes: seq<Node>, m: M.Mem)
    reads nodes
  {
    && |m.data| == |m.left| == |m.right| == |nodes| + 1 && m.left[M.NULL] == M.NULL && m.right[M.NULL] == M.NULL
    && forall p :: 0 < p <= |nodes| ==> NodeOk(nodes, p, m)
  }

  class CasDeque {
    var anchor: Anchor
    var threads: seq<Local>
    ghost var nodes: seq<Node>
    ghost var mem: M.Mem
    ghost var snaps: seq<seq<M.Ptr>>
    ghost var trace: seq<Event<Op, Ret>>

    /** mem is the machine's view of the objects. */
    ghost predicate Memory()
      reads this, nodes
    {
      NodesOk(nodes, mem) && mem.anchor == Seen(anchor) && In(nodes, anchor.l) && In(nodes, anchor.r)
    }

    ghost predicate Valid()
      reads this, nodes
    {
      Memory() && |snaps| == |threads| && forall t :: 0 <= t < |threads| ==> InAll(nodes, threads[t])
    }

    ghost function Whole(): M.State
      reads this
      requires |snaps| == |threads|
    {
      M.State(mem, Threads(threads, snaps), trace)
    }

    constructor (n: nat)
      ensures Valid() && Whole() == M.Init(n) && nodes == []
    {
      anchor, threads := Anchor(null, null, M.Stable), seq(n, _ => Idle(Empty));
      nodes, mem := [], M.Init(n).mem;
      snaps, trace := seq(n, _ => []), [];
    }

    /** The double-width compare-and-swap. */
    method CompareSwap(expected: Anchor, desired: Anchor) returns (ok: bool)
      requires Memory() && In(nodes, expected.l) && In(nodes, expected.r) && In(nodes, desired.l) && In(nodes, desired.r)
      modifies this`anchor, this`mem
      ensures Memory() && ok == (old(mem).anchor == Seen(expected))
      ensures mem == if ok then old(mem).(anchor := Seen(desired)) else old(mem)
    {
      ok := anchor == expected;
      if ok {
        anchor := desired;
        ghost var m := mem;
        mem := mem.(anchor := Seen(desired));
        SameNodes(nodes, m, mem);
      }
    }

    /** Writing one link of one node leaves all other links alone. */
    method SetLink(side: Side, x: Node, y: Node?)
      requires Memory() && In(nodes, x) && In(nodes, y)
      modifies x`left, x`right, this`mem
      ensures Memory()
      ensures mem == if side.Left? then old(mem).(left := M.Put(old(mem).left, x.id, Num(y)))
                     else old(mem).(right := M.Put(old(mem).right, x.id, Num(y)))
    {
      assert NodeOk(nodes, x.id, mem);
      if side.Left? {
        x.left := y;
        mem := mem.(left := mem.left[x.id := Num(y)]);
      } else {
        x.right := y;
        mem := mem.(right := mem.right[x.id := Num(y)]);
      }
      forall p | 0 < p <= |nodes| ensures NodeOk(nodes, p, mem) { assert old(NodeOk(nodes, p, mem)); }
    }

    /** The link of x that points to the given side. */
    method Link(side: Side, x: Node) returns (y: Node?)
      requires Memory() && In(nodes, x)
      ensures In(nodes, y) && Num(y) == if side.Left? then M.At(mem.left, x.id) else M.At(mem.right, x.id)
    {
      assert NodeOk(nodes, x.id, mem);
      y := if side.Left? then x.left else x.right;
    }

    /** History. */
    ghost method NotePush(d: Side, x: Node, a: Anchor)
      requires Memory() && mem.anchor == Seen(a)
      modifies this`mem
      ensures Memory() && mem == M.Publish(old(mem), d, x.id, Seen(a))
    {
      ghost var m := mem;
      mem := M.Publish(mem, d, x.id, Seen(a));
      SameNodes(nodes, m, mem);
    }

    ghost method NotePop(d: Side)
      requires Memory()
      modifies this`mem
      ensures Memory() && mem == old(mem).(q := M.PopEnd(old(mem).q, d))
    {
      ghost var m := mem;
      mem := mem.(q := M.PopEnd(mem.q, d));
      SameNodes(nodes, m, mem);
    }

    /** Reading the anchor, and deciding what to do. */
    method Snapshot(th: Local, t: nat, ghost snap: seq<M.Ptr>) returns (th': Local, ghost snap': seq<M.Ptr>, ghost es: seq<Event<Op, Ret>>)
      requires Memory() && InAll(nodes, th) && th.Busy? && th.pc.Snap?
      ensures InAll(nodes, th') && (mem, Thread(th', snap'), es) == M.Step(mem, Thread(th, snap), t) && th'.Busy?
    {
      var a := anchor;
      th', snap', es := th.(a := a), mem.q, [];
      if th.op.Push? && End(a, th.op.d) == null {
        th' := th'.(pc := if a.l == a.r then M.CasEmpty else M.Crash);
      } else if th.op.Push? {
        th' := th'.(pc := if a.st.Stable? then M.Link else M.StL);
      } else if a.r == null {
        if a.l == null && a.st.Stable? {
          th', es := th'.(pc := M.RetEmpty), [Commit(t, th.op, Empty)];
        } else {
          th' := th'.(pc := M.Crash);
        }
      } else if a.l == a.r {
        th' := th'.(pc := M.ChkOne);
      } else {
        th' := th'.(pc := if a.st.Stable? then M.ChkL else M.StL);
      }
    }

    /** A push sets the link of its own node. */
    method LinkOwn(th: Local, t: nat, ghost snap: seq<M.Ptr>) returns (th': Local)
      requires Memory() && InAll(nodes, th) && th.Busy? && th.pc.Link? && th.node != null
      modifies this`mem, nodes
      ensures Memory() && InAll(nodes, th') && th'.Busy? && (mem, Thread(th', snap), []) == M.Step(old(mem), Thread(th, snap), t)
    {
      SetLink(if th.op.d.Left? then Right else Left, th.node, End(th.a, th.op.d));
      th' := th.(pc := M.CasPush);
    }

    /** The compare-and-swap of a push to an empty deque. */
    method PushFirst(th: Local, t: nat, ghost snap: seq<M.Ptr>) returns (th': Local, ghost es: seq<Event<Op, Ret>>)
      requires Memory() && InAll(nodes, th) && th.Busy? && th.pc.CasEmpty? && th.node != null
      modifies this`anchor, this`mem
      ensures Memory() && InAll(nodes, th') && th'.Busy? && (mem, Thread(th', snap), es) == M.Step(old(mem), Thread(th, snap), t)
    {
      var a' := Anchor(th.node, th.node, M.Stable);
      var ok := CompareSwap(th.a, a');
      if !ok { return th.(pc := M.Snap), []; }
      NotePush(th.op.d, th.node, a');
      th', es := th.(pc := M.RetPush), [Commit(t, th.op, Pushed)];
    }

    /** The compare-and-swap of a push. */
    method PushStep(th: Local, t: nat, ghost snap: seq<M.Ptr>) returns (th': Local, ghost snap': seq<M.Ptr>, ghost es: seq<Event<Op, Ret>>)
      requires Memory() && InAll(nodes, th) && th.Busy? && th.pc.CasPush? && th.node != null
      modifies this`anchor, this`mem
      ensures Memory() && InAll(nodes, th') && th'.Busy? && (mem, Thread(th', snap'), es) == M.Step(old(mem), Thread(th, snap), t)
    {
      var a' := SetEnd(th.a, th.op.d, th.node).(st := M.PushStatus(th.op.d));
      var ok := CompareSwap(th.a, a');
      if !ok { return th.(pc := M.Snap), snap, []; }
      NotePush(th.op.d, th.node, a');
      th', snap', es := th.(pc := M.StL, a := a', pushed := true), mem.q, [Commit(t, th.op, Pushed)];
    }

    /** The compare-and-swap of a pop that takes the only element. */
    method PopLast(th: Local, t: nat, ghost snap: seq<M.Ptr>) returns (th': Local, ghost es: seq<Event<Op, Ret>>)
      requires Memory() && InAll(nodes, th) && th.Busy? && th.pc.CasOne?
      modifies this`anchor, this`mem
      ensures Memory() && InAll(nodes, th') && th'.Busy? && (mem, Thread(th', snap), es) == M.Step(old(mem), Thread(th, snap), t)
    {
      var ok := CompareSwap(th.a, Anchor(null, null, th.a.st));
      if !ok { return th.(pc := M.Snap), []; }
      NotePop(th.op.d);
      th', es := th.(pc := M.RetPop), [Commit(t, th.op, Got(M.Value(mem, Num(End(th.a, th.op.d)))))];
    }

    /** The compare-and-swap of a pop. */
    method PopStep(th: Local, t: nat, ghost snap: seq<M.Ptr>) returns (th': Local, ghost es: seq<Event<Op, Ret>>)
      requires Memory() && InAll(nodes, th) && th.Busy? && th.pc.CasPop?
      modifies this`anchor, this`mem
      ensures Memory() && InAll(nodes, th') && th'.Busy? && (mem, Thread(th', snap), es) == M.Step(old(mem), Thread(th, snap), t)
    {
      var ok := CompareSwap(th.a, SetEnd(th.a, th.op.d, th.prev));
      if !ok { return th.(pc := M.Snap), []; }
      NotePop(th.op.d);
      th', es := th.(pc := M.RetPop), [Commit(t, th.op, Got(M.Value(mem, Num(End(th.a, th.op.d)))))];
    }

    /** The instructions that read one link. */
    method LinkStep(th: Local, t: nat, ghost snap: seq<M.Ptr>) returns (th': Local)
      requires Memory() && InAll(nodes, th) && th.Busy? && (th.pc.ReadPrev? || th.pc.StPrev? || th.pc.StNbr?) && Base(th) != null
      ensures InAll(nodes, th') && th'.Busy? && (mem, Thread(th', snap), []) == M.Step(mem, Thread(th, snap), t)
    {
      var y := Link(LinkSide(th), Base(th));
      th' := Linked(th, y);
    }

    /** stabilize: the neighbour's link. */
    method FixStep(th: Local, t: nat, ghost snap: seq<M.Ptr>) returns (th': Local)
      requires Memory() && InAll(nodes, th) && th.Busy? && th.pc.StFix? && th.prev != null
      modifies this`mem, nodes
      ensures Memory() && InAll(nodes, th') && th'.Busy? && (mem, Thread(th', snap), []) == M.Step(old(mem), Thread(th, snap), t)
    {
      var e := M.PushSide(th.a.st);
      var nbr := Link(e, th.prev);
      if nbr == th.nbr {
        SetLink(e, th.prev, End(th.a, e));
        th' := th.(pc := M.StDone);
      } else {
        th' := Leave(th);
      }
    }

    /** stabilize: the status. */
    method DoneStep(th: Local, t: nat, ghost snap: seq<M.Ptr>) returns (th': Local)
      requires Memory() && InAll(nodes, th) && th.Busy? && th.pc.StDone?
      modifies this`anchor, this`mem
      ensures Memory() && InAll(nodes, th') && th'.Busy? && (mem, Thread(th', snap), []) == M.Step(old(mem), Thread(th, snap), t)
    {
      var _ := CompareSwap(th.a, th.a.(st := M.Stable));
      th' := Leave(th);
    }

    method Return(th: Local, t: nat, ghost snap: seq<M.Ptr>) returns (th': Local, ghost es: seq<Event<Op, Ret>>)
      requires Memory() && InAll(nodes, th) && th.Busy? && (th.pc.RetPush? || th.pc.RetEmpty? || (th.pc.RetPop? && End(th.a, th.op.d) != null))
      ensures th'.Idle? && es == [Event.Return(t, th'.answer)]
      ensures (mem, Thread(th', snap), es) == M.Step(mem, Thread(th, snap), t)
    {
      if th.pc.RetPop? { assert NodeOk(nodes, End(th.a, th.op.d).id, mem); }
      var answer := if th.pc.RetPush? then Pushed else if th.pc.RetEmpty? then Empty else Got(End(th.a, th.op.d).data);
      th', es := Idle(answer), [Event.Return(t, answer)];
    }

    /** The instructions that write. */
    method WriteStep(th: Local, t: nat, ghost snap: seq<M.Ptr>) returns (th': Local, ghost snap': seq<M.Ptr>, ghost es: seq<Event<Op, Ret>>)
      requires Memory() && InAll(nodes, th) && th.Busy? && Writes(th.pc) && NoNull(th)
      modifies this`anchor, this`mem, nodes
      ensures Memory() && InAll(nodes, th') && (mem, Thread(th', snap'), es) == M.Step(old(mem), Thread(th, snap), t)
    {
      snap', es := snap, [];
      match th.pc {
        case Link => th' := LinkOwn(th, t, snap);
        case CasEmpty => th', es := PushFirst(th, t, snap);
        case CasPush => th', snap', es := PushStep(th, t, snap);
        case CasOne => th', es := PopLast(th, t, snap);
        case CasPop => th', es := PopStep(th, t, snap);
        case StFix => th' := FixStep(th, t, snap);
        case StDone => th' := DoneStep(th, t, snap);
      }
    }

    /** The instructions that only read. */
    method ReadStep(th: Local, t: nat, ghost snap: seq<M.Ptr>) returns (th': Local, ghost snap': seq<M.Ptr>, ghost es: seq<Event<Op, Ret>>)
      requires Memory() && InAll(nodes, th) && th.Busy? && !Writes(th.pc) && !th.pc.Crash? && NoNull(th)
      ensures InAll(nodes, th') && (mem, Thread(th', snap'), es) == M.Step(mem, Thread(th, snap), t)
    {
      snap', es := snap, [];
      if th.pc.Snap? {
        th', snap', es := Snapshot(th, t, snap);
      } else if Checks(th.pc) {
        CheckIsStep(nodes, mem, anchor, th, snap, t);
        th' := Checked(th, anchor);
      } else if th.pc.ReadPrev? || th.pc.StPrev? || th.pc.StNbr? {
        th' := LinkStep(th, t, snap);
      } else {
        th', es := Return(th, t, snap);
      }
    }

    /** One instruction of a thread; the invariant keeps it from null pointers and from failed assertions. */
    method Instruction(th: Local, t: nat, ghost snap: seq<M.Ptr>) returns (th': Local, ghost snap': seq<M.Ptr>, ghost es: seq<Event<Op, Ret>>)
      requires Memory() && InAll(nodes, th) && th.Busy? && P.MemInv(mem) && P.ThreadInv(mem, Thread(th, snap))
      modifies this`anchor, this`mem, nodes
      ensures Memory() && InAll(nodes, th') && (mem, Thread(th', snap'), es) == M.Step(old(mem), Thread(th, snap), t)
    {
      NoNullRead(nodes, mem, th, snap);
      if Writes(th.pc) { th', snap', es := WriteStep(th, t, snap); } else { th', snap', es := ReadStep(th, t, snap); }
    }

    /** A new node that nobody refers to yet. */
    method Allocate(v: int) returns (x: Node)
      requires Memory()
      modifies this`nodes, this`mem
      ensures Memory() && nodes == old(nodes) + [x] && fresh(x) && x.id == |nodes|
      ensures mem == M.Enter(old(mem), Push(Left, v)).0
    {
      x := new Node(v, |nodes| + 1);
      ghost var before, m := nodes, mem;
      nodes, mem := nodes + [x], M.Enter(mem, Push(Left, v)).0;
      forall p | 0 < p <= |nodes| ensures NodeOk(nodes, p, mem) {
        if p <= |before| { assert NodeOk(before, p, m); }
      }
    }

    /** A call begins; a push allocates its node. */
    method Start(t: nat, op: Op)
      requires Valid() && t < |threads| && threads[t].Idle?
      modifies this
      ensures Valid() && Whole() == M.Apply(old(Whole()), M.Invoke(t, op))
      ensures forall i :: 0 <= i < |nodes| ==> nodes[i] in old(nodes) || fresh(nodes[i])
    {
      var a := anchor;
      var node: Node? := null;
      ghost var before := nodes;
      if op.Push? { node := Allocate(op.v); }
      assert forall u :: 0 <= u < |threads| ==> InAll(before, threads[u]) && InAll(nodes, threads[u]);
      threads, snaps := threads[t := Busy(op, M.Snap, node, a, null, null, false)], snaps[t := []];
      trace := trace + [Call(t, op)];
      assert Threads(threads, snaps) == old(Threads(threads, snaps))[t := Thread(threads[t], [])];
    }

    method Perform(act: M.Action)
      requires Valid() && P.Inv(Whole())
      modifies this, nodes
      ensures Valid() && Whole() == M.Apply(old(Whole()), act)
      ensures forall i :: 0 <= i < |nodes| ==> nodes[i] in old(nodes) || fresh(nodes[i])
    {
      var t := act.t;
      if t >= |threads| { return; }
      if act.Invoke? {
        if threads[t].Idle? { Start(t, act.op); }
      } else if threads[t].Busy? {
        assert P.ThreadInv(mem, Whole().threads[t]);
        Advance(t);
      }
    }

    method Advance(t: nat)
      requires Valid() && t < |threads| && threads[t].Busy?
      requires P.MemInv(mem) && P.ThreadInv(mem, Thread(threads[t], snaps[t]))
      modifies this`anchor, this`mem, this`threads, this`snaps, this`trace, nodes
      ensures Valid() && Whole() == M.Apply(old(Whole()), M.Continue(t))
    {
      ghost var before := Whole();
      var th; ghost var snap, es;
      th, snap, es := Instruction(threads[t], t, snaps[t]);
      ApplyIs(before, t, mem, Thread(th, snap), es);
      threads, snaps, trace := threads[t := th], snaps[t := snap], trace + es;
      assert Threads(threads, snaps) == old(Threads(threads, snaps))[t := Thread(th, snap)];
    }
  }

  lemma ApplyIs(s: M.State, t: nat, m': M.Mem, th': M.Local, es: seq<Event<Op, Ret>>)
    requires t < |s.threads| && s.threads[t].Busy? && M.Step(s.mem, s.threads[t], t) == (m', th', es)
    ensures M.Apply(s, M.Continue(t)) == M.State(m', s.threads[t := th'], s.trace + es)
  {
  }

  /** The nodes do not notice changes of the anchor and of history. */
  lemma SameNodes(nodes: seq<Node>, m: M.Mem, m': M.Mem)
    requires NodesOk(nodes, m) && m'.data == m.data && m'.left == m.left && m'.right == m.right
    ensures NodesOk(nodes, m')
  {
    forall p | 0 < p <= |nodes| ensures NodeOk(nodes, p, m') { assert NodeOk(nodes, p, m); }
  }

  predicate Writes(pc: M.PC) {
    pc.Link? || pc.CasEmpty? || pc.CasPush? || pc.CasOne? || pc.CasPop? || pc.StFix? || pc.StDone?
  }

  /** The node that the next instruction dereferences is there. */
  predicate NoNull(th: Local)
    requires th.Busy?
  {
    && (th.pc.CasEmpty? || th.pc.Link? || th.pc.CasPush? ==> th.node != null)
    && (th.pc.ReadPrev? || th.pc.RetPop? ==> End(th.a, th.op.d) != null)
    && (th.pc.StPrev? ==> End(th.a, M.PushSide(th.a.st)) != null)
    && (th.pc.StNbr? || th.pc.StFix? ==> th.prev != null)
  }

  lemma NoNullRead(nodes: seq<Node>, m: M.Mem, th: Local, snap: seq<M.Ptr>)
    requires th.Busy? && P.MemInv(m) && P.ThreadInv(m, Thread(th, snap))
    ensures NoNull(th) && !th.pc.Crash?
  {
    assert snap != [] ==> snap[0] in snap && snap[|snap| - 1] in snap;
  }

  /** A new deque after any schedule of n threads: what happened is linearizable. */
  method Run(n: nat, sched: seq<M.Action>) returns (deque: CasDeque)
    ensures deque.Valid() && deque.Whole() == M.Exec(M.Init(n), sched)
    ensures Linearizable(DequeSpec, [], deque.trace)
  {
    deque := new CasDeque(n);
    assert sched[..0] == [];
    for i := 0 to |sched|
      invariant fresh(deque) && fresh(deque.nodes) && deque.Valid() && deque.Whole() == M.Exec(M.Init(n), sched[..i])
    {
      P.RunKeeps(n, sched[..i]);
      deque.Perform(sched[i]);
      assert sched[..i + 1][..i] == sched[..i];
    }
    assert sched[..|sched|] == sched;
    R.DequeIsLinearizable(n, sched);
  }
}
