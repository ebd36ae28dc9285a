/**
 The ordered list as it is on the heap: node objects whose next field carries a mark, and threads whose locals
 refer to nodes and to the cells that link to them.  Cells are read and swapped in place.

 What module ListCore calls history is ghost here, so no instruction depends on it.  A ghost number in each node
 says which pointer of the machine it is; mem is the machine's view of the objects.  The instructions dereference
 no null pointer, because the invariant of module ListProof holds when they run.
 */
module ListObject {
  import opened Linearizability
  import L = ListCore
  import P = ListProof
  import O = OrderedList

  /** A reference and the mark in its lowest bit. */
  datatype Link = Link(p: Node?, marked: bool)

  class Node {
    ghost const id: nat
    const key: L.Key
    var next: Link

    constructor (key: L.Key, ghost id: nat)
      ensures this.key == key && this.id == id && next == Link(null, false)
    {
      this.key, this.id, next := key, id, Link(null, false);
    }
  }

  /** What prev points to. */
  datatype Cell = Head | Field(x: Node)

  datatype Call = Call(
    kind: L.Kind, key: L.Key, node: Node?, pc: L.PC, prev: Cell, cur: Node?, next: Link, ans: bool, took: bool)

  /** answer is that of the last call. */
  datatype Client = Idle(answer: bool) | Busy(call: Call)

  ghost function Num(x: Node?): L.Ptr { if x == null then L.NULL else x.id }
  ghost function Seen(v: Link): L.Link { L.Link(Num(v.p), v.marked) }
  ghost function Place(c: Cell): L.Cell { if c.Head? then L.Head else L.Field(c.x.id) }

  ghost function Local(l: Call, seen: set<bool>): L.Local {
    L.Local(l.kind, l.key, L.Head, L.Link(L.NULL, false), Num(l.node), l.pc, Place(l.prev), Num(l.cur), Seen(l.next),
            l.ans, l.took, seen)
  }

  ghost function Clients(threads: seq<Client>, seens: seq<set<bool>>): seq<O.Client>
    requires |seens| == |threads|
  {
    seq(|threads|, t requires 0 <= t < |threads| =>
      if threads[t].Idle? then O.Idle else O.Busy(Local(threads[t].call, seens[t])))
  }

  // ---------------------------------------------------------------- what a thread does with what it has read

  function Decide(l: Call, found: bool): Call {
    if l.took then l.(pc := L.Answer)
    else match l.kind
      case Search => l.(pc := L.Answer, ans := found)
      case Remove => if found then l.(pc := L.MarkCur) else l.(pc := L.Answer, ans := false)
      case _ => if found then l.(pc := L.Answer, ans := false) else l.(pc := L.WriteNext)
  }

  predicate Reads(pc: L.PC) {
    pc.ReadStart? || pc.RecheckStart? || pc.ReadNext? || pc.RecheckNext? || pc.RecheckPrev?
  }

  /** The cell that an instruction of find reads. */
  function Source(l: Call): Cell
    requires Reads(l.pc) && NoNull(l)
  {
    if l.pc.ReadStart? then Head else if l.pc.ReadNext? || l.pc.RecheckNext? then Field(l.cur) else l.prev
  }

  /** find, when the cell it reads holds v. */
  function Follow(l: Call, v: Link): Call
    requires Reads(l.pc) && NoNull(l)
  {
    match l.pc
    case ReadStart => if v.marked then l.(pc := L.Crash) else l.(pc := L.RecheckStart, prev := Head, cur := v.p)
    case RecheckStart =>
      if v != Link(l.cur, false) then l.(pc := L.ReadStart)
      else if l.cur != null then l.(pc := L.ReadNext)
      else Decide(l, false)
    case ReadNext => l.(pc := L.RecheckNext, next := v)
    case RecheckNext => l.(pc := if v != l.next then L.ReadStart else L.RecheckPrev)
    case RecheckPrev =>
      if v != Link(l.cur, false) then l.(pc := L.ReadStart)
      else if l.next.marked then l.(pc := L.Unlink)
      else if l.cur.key == l.key then Decide(l, true)
      else if L.Less(l.key, l.cur.key) then Decide(l, false)
      else if l.next.p == null then Decide(l.(prev := Field(l.cur), cur := null), false)
      else l.(prev := Field(l.cur), cur := l.next.p, pc := L.ReadNext)
  }

  /** The node that the next instruction dereferences is there. */
  predicate NoNull(l: Call) {
    && (l.pc.ReadNext? || l.pc.RecheckNext? || l.pc.RecheckPrev? || l.pc.Unlink? || l.pc.MarkCur? || l.pc.UnlinkMarked? ==> l.cur != null)
    && (l.pc.WriteNext? || l.pc.CasAdd? ==> l.node != null)
  }

  lemma NoNullRead(m: L.Mem, l: Call, seen: set<bool>, t: nat)
    requires P.MemInv(m) && P.LInv(m, Local(l, seen), t)
    ensures NoNull(l) && !l.pc.Crash?
  {
  }

  // ---------------------------------------------------------------- objects and the machine's view of them

  /** x is null, or the node of these that its number says. */
  ghost predicate In(nodes: seq<Node>, x: Node?) {
    x != null ==> 0 < x.id <= |nodes| && nodes[x.id - 1] == x
  }

  ghost predicate InCall(nodes: seq<Node>, l: Call) {
    In(nodes, l.node) && In(nodes, l.cur) && In(nodes, l.next.p) && (l.prev.Field? ==> In(nodes, l.prev.x))
  }

  ghost predicate NodeOk(nodes: seq<Node>, p: L.Ptr, m: L.Mem)
    requires 0 < p <= |nodes| && |m.keys| == |m.next| == |nodes| + 1
    reads nodes
  {
    var x := nodes[p - 1];
    x.id == p && x.key == m.keys[p] && In(nodes, x.next.p) && Seen(x.next) == m.next[p]
  }

  ghost predicate NodesOk(nodes: seq<Node>, m: L.Mem)
    reads nodes
  {
    |m.keys| == |m.next| == |nodes| + 1 && forall p :: 0 < p <= |nodes| ==> NodeOk(nodes, p, m)
  }

  /** What cell c holds in the machine's view. */
  ghost function Held(m: L.Mem, c: Cell): L.Link { if c.Head? then m.head else L.Next(m, c.x.id) }

  ghost predicate CanFollow(nodes: seq<Node>, m: L.Mem, l: Call, v: Link) {
    && InCall(nodes, l) && In(nodes, v.p) && Reads(l.pc) && NoNull(l) && Seen(v) == Held(m, Source(l))
    && (l.cur != null ==> L.KeyOf(m, l.cur.id) == l.cur.key)
  }

  /** The call goes where the machine goes; it may have seen its answer. */
  ghost predicate Follows(nodes: seq<Node>, m: L.Mem, l: Call, seen: set<bool>, v: Link)
    requires Reads(l.pc) && NoNull(l)
  {
    var (m', l', e) := L.Step(m, Local(l, seen));
    InCall(nodes, Follow(l, v)) && m' == m && l' == Local(Follow(l, v), l'.seen)
  }

  lemma DecideIs(l: Call, seen: set<bool>, found: bool)
    ensures Local(Decide(l, found), seen) == L.Decide(Local(l, seen), found)
  {
  }

  lemma SameLink(nodes: seq<Node>, v: Link, w: Link)
    requires In(nodes, v.p) && In(nodes, w.p)
    ensures v == w <==> Seen(v) == Seen(w)
  {
  }

  lemma StartFollows(nodes: seq<Node>, m: L.Mem, l: Call, seen: set<bool>, v: Link)
    requires CanFollow(nodes, m, l, v) && l.pc.ReadStart?
    ensures Follows(nodes, m, l, seen, v)
  {
  }

  lemma RecheckFollows(nodes: seq<Node>, m: L.Mem, l: Call, seen: set<bool>, v: Link)
    requires CanFollow(nodes, m, l, v) && l.pc.RecheckStart?
    ensures Follows(nodes, m, l, seen, v)
  {
    SameLink(nodes, v, Link(l.cur, false));
    DecideIs(l, L.Noted(Local(l, seen), false).seen, false);
  }

  lemma NextFollows(nodes: seq<Node>, m: L.Mem, l: Call, seen: set<bool>, v: Link)
    requires CanFollow(nodes, m, l, v) && (l.pc.ReadNext? || l.pc.RecheckNext?)
    ensures Follows(nodes, m, l, seen, v)
  {
    SameLink(nodes, v, l.next);
  }

  lemma PrevFollows(nodes: seq<Node>, m: L.Mem, l: Call, seen: set<bool>, v: Link)
    requires CanFollow(nodes, m, l, v) && l.pc.RecheckPrev?
    ensures Follows(nodes, m, l, seen, v)
  {
    SameLink(nodes, v, Link(l.cur, false));
    if v != Link(l.cur, false) || l.next.marked {
    } else if l.cur.key == l.key || L.Less(l.key, l.cur.key) {
      KeyDecides(nodes, m, l, seen, v);
    } else {
      GoesOn(nodes, m, l, seen, v);
    }
  }

  lemma KeyDecides(nodes: seq<Node>, m: L.Mem, l: Call, seen: set<bool>, v: Link)
    requires CanFollow(nodes, m, l, v) && l.pc.RecheckPrev? && v == Link(l.cur, false) && !l.next.marked
    requires l.cur.key == l.key || L.Less(l.key, l.cur.key)
    ensures Follows(nodes, m, l, seen, v)
  {
    DecideIs(l, seen, true);
    DecideIs(l, L.Noted(Local(l, seen), false).seen, false);
  }

  lemma GoesOn(nodes: seq<Node>, m: L.Mem, l: Call, seen: set<bool>, v: Link)
    requires CanFollow(nodes, m, l, v) && l.pc.RecheckPrev? && v == Link(l.cur, false) && !l.next.marked
    requires l.cur.key != l.key && !L.Less(l.key, l.cur.key)
    ensures Follows(nodes, m, l, seen, v)
  {
    DecideIs(l.(prev := Field(l.cur), cur := null), seen, false);
  }

  /** Reading v, a call does what the machine does. */
  lemma FollowIsStep(nodes: seq<Node>, m: L.Mem, l: Call, seen: set<bool>, v: Link)
    requires CanFollow(nodes, m, l, v)
    ensures Follows(nodes, m, l, seen, v)
  {
    if l.pc.RecheckPrev? { PrevFollows(nodes, m, l, seen, v); }
    else if l.pc.ReadNext? || l.pc.RecheckNext? { NextFollows(nodes, m, l, seen, v); }
    else if l.pc.RecheckStart? { RecheckFollows(nodes, m, l, seen, v); }
    else { StartFollows(nodes, m, l, seen, v); }
  }

  class SortedList {
    var head: Link
    var threads: seq<Client>
    ghost var nodes: seq<Node>
    ghost var mem: L.Mem
    ghost var seens: seq<set<bool>>
    ghost var trace: seq<Event<O.Op, bool>>

    ghost predicate Memory()
      reads this, nodes
    {
      NodesOk(nodes, mem) && mem.head == Seen(head) && In(nodes, head.p)
    }

    ghost predicate Valid()
      reads this, nodes
    {
      Memory() && |seens| == |threads| && forall t :: 0 <= t < |threads| && threads[t].Busy? ==> InCall(nodes, threads[t].call)
    }

    ghost function Whole(): O.State
      reads this
      requires |seens| == |threads|
    {
      O.State(mem, Clients(threads, seens), trace)
    }

    constructor (n: nat)
      ensures Valid() && Whole() == O.Init(n) && nodes == []
    {
      head, threads := Link(null, false), seq(n, _ => Idle(false));
      nodes, mem := [], L.EMPTY;
      seens, trace := seq(n, _ => {}), [];
    }

    /** What a cell holds. */
    method Load(c: Cell) returns (v: Link)
      requires Memory() && (c.Field? ==> In(nodes, c.x))
      ensures In(nodes, v.p) && Seen(v) == Held(mem, c)
    {
      if c.Field? { assert NodeOk(nodes, c.x.id, mem); }
      v := if c.Head? then head else c.x.next;
    }

    /** Writing one node's next field leaves the other nodes alone. */
    method SetNext(x: Node, v: Link)
      requires Memory() && In(nodes, x) && In(nodes, v.p)
      modifies x`next, this`mem
      ensures Memory() && mem == old(mem).(next := old(mem).next[x.id := Seen(v)])
    {
      assert NodeOk(nodes, x.id, mem);
      x.next := v;
      mem := mem.(next := mem.next[x.id := Seen(v)]);
      forall p | 0 < p <= |nodes| ensures NodeOk(nodes, p, mem) { assert old(NodeOk(nodes, p, mem)); }
    }

    /** compare_swap on the cell prev, from cur to node p. */
    method CasPrev(l: Call, p: Node?, ghost seen: set<bool>) returns (ok: bool)
      requires Memory() && InCall(nodes, l) && In(nodes, p)
      modifies this`head, this`mem, nodes
      ensures Memory() && ok == (L.Load(old(mem), Local(l, seen), Place(l.prev)) == L.Link(Num(l.cur), false))
      ensures mem == if ok then L.Store(old(mem), Local(l, seen), Num(p)).0 else old(mem)
    {
      var v := Load(l.prev);
      ok := v == Link(l.cur, false);
      if ok && l.prev.Head? {
        head := Link(p, false);
        ghost var m := mem;
        mem := mem.(head := L.Link(Num(p), false));
        SameNodes(nodes, m, mem);
      } else if ok {
        SetNext(l.prev.x, Link(p, false));
      }
    }

    /** History: where node p is, and the nodes that can be reached. */
    ghost method Note(p: L.Ptr, s: L.Status, chain: seq<L.Ptr>)
      requires Memory()
      modifies this`mem
      ensures Memory() && mem == L.SetStatus(old(mem).(chain := chain), p, s)
    {
      ghost var m := mem;
      mem := L.SetStatus(mem.(chain := chain), p, s);
      SameNodes(nodes, m, mem);
    }

    /** One instruction of find. */
    method ReadStep(l: Call, ghost seen: set<bool>) returns (l': Call, ghost seen': set<bool>, ghost e: L.Effect)
      requires Memory() && InCall(nodes, l) && Reads(l.pc) && NoNull(l)
      ensures InCall(nodes, l') && (mem, Local(l', seen'), e) == L.Step(mem, Local(l, seen))
    {
      if l.cur != null { assert NodeOk(nodes, l.cur.id, mem); }
      var v := Load(Source(l));
      FollowIsStep(nodes, mem, l, seen, v);
      l' := Follow(l, v);
      e := L.Step(mem, Local(l, seen)).2;
      seen' := L.Step(mem, Local(l, seen)).1.seen;
    }

    /** find unlinks a marked node. */
    method UnlinkStep(l: Call, ghost seen: set<bool>) returns (l': Call, ghost seen': set<bool>, ghost e: L.Effect)
      requires Memory() && InCall(nodes, l) && l.pc.Unlink?
      modifies this`head, this`mem, nodes
      ensures Memory() && InCall(nodes, l') && (mem, Local(l', seen'), e) == L.Step(old(mem), Local(l, seen))
    {
      seen', e := seen, L.Nothing;
      UnlinkIs(mem, l, seen);
      var ok := Unlink(l, seen);
      if !ok { return l.(pc := L.ReadStart), seen', e; }
      if l.next.p != null { return l.(cur := l.next.p, pc := L.ReadNext), seen', e; }
      seen', e := L.Noted(Local(l.(cur := null), seen), false).seen, L.Sight(Local(l, seen), false);
      l' := Decide(l.(cur := null), false);
    }

    /** prev goes from cur to the successor of cur. */
    method Unlink(l: Call, ghost seen: set<bool>) returns (ok: bool)
      requires Memory() && InCall(nodes, l)
      modifies this`head, this`mem, nodes
      ensures Memory()
      ensures ok == (L.Load(old(mem), Local(l, seen), Place(l.prev)) == L.Link(Num(l.cur), false))
      ensures mem == if ok then CutOut(old(mem), l, seen) else old(mem)
    {
      ghost var chain := mem.chain;
      ok := CasPrev(l, l.next.p, seen);
      if ok { Note(Num(l.cur), L.Gone, L.RemoveAt(chain, L.Slot(chain, Place(l.prev)))); }
    }

    /** add: the new node's next field, and its insertion. */
    method AddStep(l: Call, ghost seen: set<bool>) returns (l': Call, ghost e: L.Effect)
      requires Memory() && InCall(nodes, l) && (l.pc.WriteNext? || l.pc.CasAdd?) && l.node != null
      modifies this`head, this`mem, nodes
      ensures Memory() && InCall(nodes, l') && (mem, Local(l', seen), e) == L.Step(old(mem), Local(l, seen))
    {
      if l.pc.WriteNext? {
        SetNext(l.node, Link(l.cur, false));
        return l.(pc := L.CasAdd), L.Nothing;
      }
      ghost var chain := mem.chain;
      var ok := CasPrev(l, l.node, seen);
      if !ok { return l.(pc := L.ReadStart), L.Nothing; }
      Note(Num(l.node), L.Listed, L.InsertAt(chain, L.Slot(chain, Place(l.prev)), Num(l.node)));
      l', e := l.(pc := L.Answer, cur := l.node, ans := true, took := true), L.Takes(true);
    }

    /** remove: marking the victim. */
    method MarkStep(l: Call, ghost seen: set<bool>) returns (l': Call, ghost e: L.Effect)
      requires Memory() && InCall(nodes, l) && l.pc.MarkCur? && l.cur != null
      modifies this`mem, nodes
      ensures Memory() && InCall(nodes, l') && (mem, Local(l', seen), e) == L.Step(old(mem), Local(l, seen))
    {
      var v := Load(Field(l.cur));
      if v != l.next { return l.(pc := L.ReadStart), L.Nothing; }
      SetNext(l.cur, Link(l.next.p, true));
      l', e := l.(pc := L.UnlinkMarked, ans := true, took := true), L.Takes(true);
    }

    /** remove: unlinking the victim. */
    method RemoveStep(l: Call, ghost seen: set<bool>) returns (l': Call)
      requires Memory() && InCall(nodes, l) && l.pc.UnlinkMarked?
      modifies this`head, this`mem, nodes
      ensures Memory() && InCall(nodes, l') && (mem, Local(l', seen), L.Nothing) == L.Step(old(mem), Local(l, seen))
    {
      var ok := Unlink(l, seen);
      l' := l.(pc := if ok then L.Answer else L.ReadStart);
    }

    /** One instruction of a call; the invariant keeps it from null pointers and from failed assertions. */
    method Instruction(l: Call, ghost seen: set<bool>, ghost t: nat) returns (l': Call, ghost seen': set<bool>, ghost e: L.Effect)
      requires Memory() && InCall(nodes, l) && P.MemInv(mem) && P.LInv(mem, Local(l, seen), t) && !l.pc.Answer?
      modifies this`head, this`mem, nodes
      ensures Memory() && InCall(nodes, l') && (mem, Local(l', seen'), e) == L.Step(old(mem), Local(l, seen))
    {
      NoNullRead(mem, l, seen, t);
      seen' := seen;
      if Reads(l.pc) { l', seen', e := ReadStep(l, seen); }
      else if l.pc.Unlink? { l', seen', e := UnlinkStep(l, seen); }
      else if l.pc.MarkCur? { l', e := MarkStep(l, seen); }
      else if l.pc.UnlinkMarked? { l' := RemoveStep(l, seen); e := L.Nothing; }
      else { l', e := AddStep(l, seen); }
    }

    /** A call begins; the two kinds of add allocate a node. */
    method Begin(t: nat, op: O.Op)
      requires Valid() && t < |threads| && threads[t].Idle?
      modifies this
      ensures Valid() && Whole() == O.Apply(old(Whole()), O.Invoke(t, op))
      ensures forall i :: 0 <= i < |nodes| ==> nodes[i] in old(nodes) || fresh(nodes[i])
    {
      var node: Node? := null;
      ghost var before := nodes;
      if op.kind.Add? || op.kind.AddAddr? { node := Allocate(op.kind, op.key, t); }
      assert forall u :: 0 <= u < |threads| && threads[u].Busy? ==> InCall(before, threads[u].call) && InCall(nodes, threads[u].call);
      var l := Call.Call(op.kind, op.key, node, L.ReadStart, Head, null, Link(null, false), false, false);
      threads, seens := threads[t := Busy(l)], seens[t := {}];
      trace := trace + [Event.Call(t, op)];
      assert Clients(threads, seens) == old(Clients(threads, seens))[t := O.Busy(Local(l, {}))];
    }

    method Allocate(kind: L.Kind, key: L.Key, ghost t: nat) returns (x: Node)
      requires Memory() && (kind.Add? || kind.AddAddr?)
      modifies this`nodes, this`mem
      ensures Memory() && nodes == old(nodes) + [x] && fresh(x) && x.id == |nodes| == |old(mem).keys|
      ensures mem == L.Enter(old(mem), kind, key, L.Head, L.NULL, t).0
    {
      x := new Node(key, |nodes| + 1);
      ghost var before, m := nodes, mem;
      nodes, mem := nodes + [x], L.Enter(mem, kind, key, L.Head, L.NULL, t).0;
      forall p | 0 < p <= |nodes| ensures NodeOk(nodes, p, mem) {
        if p <= |before| { assert NodeOk(before, p, m); }
      }
    }

    method Perform(act: O.Action)
      requires Valid() && O.Inv(Whole())
      modifies this, nodes
      ensures Valid() && Whole() == O.Apply(old(Whole()), act)
      ensures forall i :: 0 <= i < |nodes| ==> nodes[i] in old(nodes) || fresh(nodes[i])
    {
      var t := act.t;
      if t >= |threads| { return; }
      if act.Invoke? {
        if threads[t].Idle? { Begin(t, act.op); }
      } else if threads[t].Busy? {
        assert O.ClientInv(mem, Whole().threads[t], t);
        if threads[t].call.pc.Answer? { Finish(t); } else { Advance(t); }
      }
    }

    method Finish(t: nat)
      requires Valid() && t < |threads| && threads[t].Busy? && threads[t].call.pc.Answer?
      modifies this`threads, this`trace
      ensures Valid() && Whole() == O.Apply(old(Whole()), O.Continue(t))
    {
      var answer := threads[t].call.ans;
      threads, trace := threads[t := Idle(answer)], trace + [Return(t, answer)];
      assert Clients(threads, seens) == old(Clients(threads, seens))[t := O.Idle];
    }

    method Advance(t: nat)
      requires Valid() && t < |threads| && threads[t].Busy? && !threads[t].call.pc.Answer?
      requires P.MemInv(mem) && P.LInv(mem, Local(threads[t].call, seens[t]), t)
      modifies this`head, this`mem, this`threads, this`seens, this`trace, nodes
      ensures Valid() && Whole() == O.Apply(old(Whole()), O.Continue(t))
    {
      var l := threads[t].call;
      ghost var before := Whole();
      var l'; ghost var seen, e;
      l', seen, e := Instruction(l, seens[t], t);
      ApplyIs(before, t, Local(l, seens[t]), mem, Local(l', seen), e);
      trace := trace + O.Mark(t, Local(l, seens[t]), e);
      ClientMoves(threads, seens, t, l', seen);
      threads, seens := threads[t := Busy(l')], seens[t := seen];
    }
  }

  /** The machine's memory after the successor of cur has taken its place behind prev. */
  ghost function CutOut(m: L.Mem, l: Call, seen: set<bool>): L.Mem {
    L.SetStatus(L.Store(m, Local(l, seen), Num(l.next.p)).0.(chain := L.RemoveAt(m.chain, L.Slot(m.chain, Place(l.prev)))), Num(l.cur), L.Gone)
  }

  lemma UnlinkIs(m: L.Mem, l: Call, seen: set<bool>)
    requires l.pc.Unlink?
    ensures var l0 := l.(cur := null);
      L.Step(m, Local(l, seen)) ==
        (if L.Load(m, Local(l, seen), Place(l.prev)) != L.Link(Num(l.cur), false) then (m, Local(l.(pc := L.ReadStart), seen), L.Nothing)
         else if Num(l.next.p) != L.NULL then (CutOut(m, l, seen), Local(l.(cur := l.next.p, pc := L.ReadNext), seen), L.Nothing)
         else (CutOut(m, l, seen), Local(Decide(l0, false), L.Noted(Local(l0, seen), false).seen), L.Sight(Local(l, seen), false)))
  {
    var l0 := l.(cur := null);
    DecideIs(l0, L.Noted(Local(l0, seen), false).seen, false);
  }

  lemma ClientMoves(threads: seq<Client>, seens: seq<set<bool>>, t: nat, l: Call, seen: set<bool>)
    requires |seens| == |threads| && t < |threads|
    ensures Clients(threads[t := Busy(l)], seens[t := seen]) == Clients(threads, seens)[t := O.Busy(Local(l, seen))]
  {
  }

  lemma ApplyIs(s: O.State, t: nat, l: L.Local, m': L.Mem, l': L.Local, e: L.Effect)
    requires t < |s.threads| && s.threads[t] == O.Busy(l) && !l.pc.Answer? && L.Step(s.mem, l) == (m', l', e)
    ensures O.Apply(s, O.Continue(t)) == O.State(m', s.threads[t := O.Busy(l')], s.trace + O.Mark(t, l, e))
  {
  }

  /** The nodes do not notice changes of head and of history. */
  lemma SameNodes(nodes: seq<Node>, m: L.Mem, m': L.Mem)
    requires NodesOk(nodes, m) && m'.keys == m.keys && m'.next == m.next
    ensures NodesOk(nodes, m')
  {
    forall p | 0 < p <= |nodes| ensures NodeOk(nodes, p, m') { assert NodeOk(nodes, p, m); }
  }

  /** A new list after any schedule of n threads: what happened is linearizable. */
  method Run(n: nat, sched: seq<O.Action>) returns (list: SortedList)
    ensures list.Valid() && list.Whole() == O.Exec(O.Init(n), sched)
    ensures Linearizable(O.SetSpec, {}, list.trace)
  {
    list := new SortedList(n);
    assert sched[..0] == [];
    for i := 0 to |sched|
      invariant fresh(list) && fresh(list.nodes) && list.Valid() && list.Whole() == O.Exec(O.Init(n), sched[..i])
    {
      O.RunKeeps(n, sched[..i]);
      list.Perform(sched[i]);
      assert sched[..i + 1][..i] == sched[..i];
    }
    assert sched[..|sched|] == sched;
    O.ListIsLinearizable(n, sched);
  }
}
