/**
 The invariant of the elimination-backoff stack, step by step.
 */
module EBStackProof {
  import opened Linearizability
  import opened StackSpecs
  import opened Sequences
  import opened EBStack

  // ---------------------------------------------------------------- memory

  function Below(stack: seq<Ptr>, i: nat): Ptr {
    if i + 1 < |stack| then stack[i + 1] else NULL
  }

  predicate Sized(m: Mem) {
    && |m.data| == |m.next| == |m.own| > 0 && m.own[NULL] == Nowhere
    && |m.push| == |m.pop| == |m.pusher| == |m.popper| > 0 && |m.at| == |m.phase|
  }

  /** stack is the list that top starts. */
  ghost predicate StackInv(m: Mem) {
    && Sized(m) && Distinct(m.stack)
    && (forall i :: 0 <= i < |m.stack| ==> m.stack[i] < |m.own| && m.own[m.stack[i]] == OnStack)
    && m.top == (if m.stack == [] then NULL else m.stack[0])
    && (forall i {:trigger m.next[m.stack[i]]} :: 0 <= i < |m.stack| ==> m.next[m.stack[i]] == Below(m.stack, i))
  }

  /** An offered node is in its slot, and its pusher waits there with the call still pending. */
  predicate PushSlotOk(m: Mem, i: nat) {
    var u := Pusher(m, i);
    match PushSlot(m, i)
    case Free => true
    case Node(p) =>
      && 0 < p < |m.own| && m.own[p] == InPush(i)
      && u < |m.at| && u < |m.phase| && m.at[u] == AtPush(i) && m.phase[u] == Pending(Push(Data(m, p)), {})
    case Removed => u < |m.at| && m.at[u] == AtPush(i)
    case Tomb => false
  }

  /** A popper waits at its tombstone with the call still pending, or at the node it has been fed. */
  predicate PopSlotOk(m: Mem, i: nat) {
    var u := Popper(m, i);
    match PopSlot(m, i)
    case Free => true
    case Tomb => u < |m.at| && u < |m.phase| && m.at[u] == AtPop(i) && m.phase[u] == Pending(Pop, {})
    case Node(p) => 0 < p < |m.own| && m.own[p] == InPop(i) && u < |m.at| && m.at[u] == AtPop(i)
    case Removed => false
  }

  ghost predicate SlotsInv(m: Mem) {
    && Sized(m) && (forall i :: 0 <= i < |m.push| ==> PushSlotOk(m, i)) && (forall i :: 0 <= i < |m.pop| ==> PopSlotOk(m, i))
  }

  /** A node is where own says it is. */
  ghost predicate PlacesInv(m: Mem) {
    && (forall p :: 0 <= p < |m.own| && m.own[p] == OnStack ==> p in m.stack)
    && (forall p :: 0 <= p < |m.own| && m.own[p].InPush? ==> PushSlot(m, m.own[p].i) == Node(p))
    && (forall p :: 0 <= p < |m.own| && m.own[p].InPop? ==> PopSlot(m, m.own[p].i) == Node(p))
  }

  ghost predicate MemInv(m: Mem) {
    StackInv(m) && SlotsInv(m) && PlacesInv(m)
  }

  // ---------------------------------------------------------------- threads

  predicate Settled(w: Where) { w == OnStack || w.Taken? }

  predicate Stands(m: Mem, t: nat, s: Spot, p: Phase<Op, Ret>) {
    t < |m.at| && t < |m.phase| && m.at[t] == s && m.phase[t] == p
  }

  /** A push that holds its node. */
  predicate Holding(m: Mem, th: Local, t: nat)
    requires th.Busy?
  {
    && th.op.Push? && Stands(m, t, Away, Pending(th.op, {}))
    && 0 < th.node < |m.own| && m.own[th.node] == Hand(t) && Data(m, th.node) == th.op.v
  }

  predicate Popping(m: Mem, th: Local, t: nat)
    requires th.Busy?
  {
    th.op.Pop? && Stands(m, t, Away, Pending(th.op, {}))
  }

  /** A pop that has been given a node, and has taken effect with its value. */
  predicate Delivered(m: Mem, th: Local, t: nat)
    requires th.Busy?
  {
    && th.op.Pop? && 0 < th.p < |m.own| && m.own[th.p] == Taken(t)
    && Stands(m, t, Away, Done(th.op, Got(Data(m, th.p))))
  }

  /** A push that has offered its node: the node is there still, or has been taken. */
  predicate Offering(m: Mem, th: Local, t: nat)
    requires th.Busy?
  {
    var i := Index(m, th);
    && th.op.Push? && i < |m.push| && Pusher(m, i) == t && t < |m.at|
    && 0 < th.node < |m.own| && Data(m, th.node) == th.op.v
    && (if PushSlot(m, i) == Removed then Stands(m, t, AtPush(i), Done(th.op, Pushed))
        else PushSlot(m, i) == Node(th.node) && Stands(m, t, AtPush(i), Pending(th.op, {})))
  }

  /** A pop that has left a tombstone: it is there still, or a node has been put in its place. */
  predicate Waiting(m: Mem, th: Local, t: nat)
    requires th.Busy?
  {
    var i := Index(m, th);
    && th.op.Pop? && i < |m.pop| && Popper(m, i) == t && t < |m.at|
    && (if PopSlot(m, i) == Tomb then Stands(m, t, AtPop(i), Pending(th.op, {}))
        else PopSlot(m, i).Node? && Stands(m, t, AtPop(i), Done(th.op, Got(Data(m, PopSlot(m, i).p)))))
  }

  predicate ThreadInv(m: Mem, th: Local, t: nat) {
    if th.Idle? then Stands(m, t, Away, Quiet)
    else
      match th.pc
      case PushCas => Holding(m, th, t) && Next(m, th.node) == th.oldTop
      case WaitLoad => Offering(m, th, t)
      case Withdraw => Offering(m, th, t)
      case ClearPush => Offering(m, th, t) && PushSlot(m, Index(m, th)) == Removed
      case RetPush => th.op.Push? && Stands(m, t, Away, Done(th.op, Pushed))
      case PopCheck => Popping(m, th, t) && th.oldTop != NULL
      case PopNext => Popping(m, th, t) && 0 < th.oldTop < |m.own| && Settled(m.own[th.oldTop])
      case PopCas =>
        Popping(m, th, t) && 0 < th.oldTop < |m.own| && Settled(m.own[th.oldTop]) && th.newTop == Next(m, th.oldTop)
      case TombWait => Waiting(m, th, t)
      case TombWithdraw => Waiting(m, th, t)
      case ClearPop => Waiting(m, th, t) && PopSlot(m, Index(m, th)) == Node(th.p)
      case PopData => Delivered(m, th, t)
      case RetPop => Delivered(m, th, t) && th.ret == Data(m, th.p)
      case PeekRead => th.op.Peek? && Stands(m, t, Away, Pending(th.op, {}))
      case PeekCheck => th.op.Peek? && Stands(m, t, Away, Pending(th.op, {})) && th.oldTop != NULL
      case PeekData => th.op.Peek? && th.oldTop < |m.own| && Stands(m, t, Away, Done(th.op, Got(Data(m, th.oldTop))))
      case RetPeek => th.op.Peek? && Stands(m, t, Away, Done(th.op, Got(th.ret)))
      case RetEmpty => !th.op.Push? && Stands(m, t, Away, Done(th.op, Empty))
      case Crash => if th.op.Push? then Holding(m, th, t) else Popping(m, th, t)
      case _ => if InPushCall(th.pc) then Holding(m, th, t) else Popping(m, th, t)
  }

  predicate InPushCall(pc: PC) {
    pc.PushRead? || pc.PushWrite? || pc.AddPos? || pc.FeedLoad? || pc.FeedCas? || pc.OfferLoad? || pc.OfferCas?
  }

  // ---------------------------------------------------------------- what other threads may do

  /** A node that a pop has taken stays with it: it is never delivered again. */
  ghost predicate StillTaken(m: Mem, m': Mem) {
    |m.own| <= |m'.own| && forall p :: 0 <= p < |m.own| && m.own[p].Taken? ==> m'.own[p] == m.own[p]
  }

  ghost predicate NodesKept(m: Mem, m': Mem, t: nat) {
    && |m.own| <= |m'.own|
    && (forall p :: 0 <= p < |m.own| ==> Data(m', p) == Data(m, p))
    && (forall p :: 0 <= p < |m.own| && m.own[p].Hand? && m.own[p].t != t ==> m'.own[p] == m.own[p] && Next(m', p) == Next(m, p))
    && StillTaken(m, m')
    && (forall p :: 0 <= p < |m.own| && Settled(m.own[p]) ==> Settled(m'.own[p]) && Next(m', p) == Next(m, p))
  }

  predicate PushKept(m: Mem, m': Mem, i: nat) {
    var u := Pusher(m, i);
    && Pusher(m', i) == u && u < |m.phase| && u < |m'.phase|
    && ( || (PushSlot(m', i) == PushSlot(m, i) && m'.phase[u] == m.phase[u])
         || (PushSlot(m, i).Node? && PushSlot(m', i) == Removed
             && m'.phase[u] == Done(Push(Data(m, PushSlot(m, i).p)), Pushed)))
  }

  predicate PopKept(m: Mem, m': Mem, i: nat) {
    var u := Popper(m, i);
    && Popper(m', i) == u && u < |m.phase| && u < |m'.phase|
    && ( || (PopSlot(m', i) == PopSlot(m, i) && m'.phase[u] == m.phase[u])
         || (PopSlot(m, i) == Tomb && PopSlot(m', i).Node? && m'.phase[u] == Done(Pop, Got(Data(m', PopSlot(m', i).p)))))
  }

  ghost predicate Rely(m: Mem, m': Mem, t: nat) {
    && Sized(m) && Sized(m') && NodesKept(m, m', t)
    && |m'.push| == |m.push| && |m'.at| == |m.at|
    && (forall u :: 0 <= u < |m.at| && u != t ==> m'.at[u] == m.at[u] && (m.at[u] == Away ==> m'.phase[u] == m.phase[u]))
    && (forall i :: 0 <= i < |m.push| && PushSlot(m, i) != Free && Pusher(m, i) != t ==> PushKept(m, m', i))
    && (forall i :: 0 <= i < |m.pop| && PopSlot(m, i) != Free && Popper(m, i) != t ==> PopKept(m, m', i))
  }

  lemma OfferingStable(m: Mem, m': Mem, t: nat, th: Local, u: nat)
    requires SlotsInv(m) && Rely(m, m', t) && th.Busy? && Offering(m, th, u) && u != t
    ensures Offering(m', th, u)
  {
    var i := Index(m, th);
    assert Index(m', th) == i;
    assert PushSlotOk(m, i);
    assert PushKept(m, m', i);
  }

  lemma WaitingStable(m: Mem, m': Mem, t: nat, th: Local, u: nat)
    requires SlotsInv(m) && Rely(m, m', t) && th.Busy? && Waiting(m, th, u) && u != t
    ensures Waiting(m', th, u)
  {
    var i := Index(m, th);
    assert Index(m', th) == i;
    assert PopSlotOk(m, i);
    assert PopKept(m, m', i);
  }

  lemma ThreadStable(m: Mem, m': Mem, t: nat, th: Local, u: nat)
    requires SlotsInv(m) && Rely(m, m', t) && ThreadInv(m, th, u) && u != t
    ensures ThreadInv(m', th, u)
  {
    if th.Busy? {
      assert Index(m', th) == Index(m, th);
      if th.pc.WaitLoad? || th.pc.Withdraw? { OfferingStable(m, m', t, th, u); }
      else if th.pc.ClearPush? {
        OfferingStable(m, m', t, th, u);
        assert PushKept(m, m', Index(m, th));
      }
      else if th.pc.TombWait? || th.pc.TombWithdraw? { WaitingStable(m, m', t, th, u); }
      else if th.pc.ClearPop? {
        WaitingStable(m, m', t, th, u);
        assert PopKept(m, m', Index(m, th));
      }
      else { AwayStable(m, m', t, th, u); }
    }
  }

  lemma AwayStable(m: Mem, m': Mem, t: nat, th: Local, u: nat)
    requires Rely(m, m', t) && th.Busy? && ThreadInv(m, th, u) && u != t && u < |m.at| && m.at[u] == Away
    ensures ThreadInv(m', th, u)
  {
  }

  // ---------------------------------------------------------------- what steps do to memory

  /** A step of thread t that goes from m to m' and makes events es. */
  function After(m': Mem, es: seq<Event<Op, Ret>>): Mem {
    m'.(phase := MovedBy(m'.phase, es))
  }

  lemma OneMove(phase: seq<Phase<Op, Ret>>, e: Event<Op, Ret>)
    ensures MovedBy(phase, [e]) == Moved(phase, e)
  {
    assert [e][1..] == [];
  }

  lemma TwoMoves(phase: seq<Phase<Op, Ret>>, e: Event<Op, Ret>, f: Event<Op, Ret>)
    ensures MovedBy(phase, [e, f]) == Moved(Moved(phase, e), f)
  {
    assert [e, f][1..] == [f];
    OneMove(Moved(phase, e), f);
  }

  lemma NothingKeeps(m: Mem, t: nat)
    requires MemInv(m)
    ensures Rely(m, m, t)
  {
    forall i | 0 <= i < |m.push| && PushSlot(m, i) != Free ensures PushKept(m, m, i) { assert PushSlotOk(m, i); }
    forall i | 0 <= i < |m.pop| && PopSlot(m, i) != Free ensures PopKept(m, m, i) { assert PopSlotOk(m, i); }
  }

  /** Only the counter, or the phase of thread t, which waits nowhere, changes. */
  lemma PhaseKeeps(m: Mem, t: nat, counter: Counter, p: Phase<Op, Ret>)
    requires MemInv(m) && t < |m.at| && m.at[t] == Away
    ensures var m' := m.(counter := counter, phase := m.phase[t := p]); MemInv(m') && Rely(m, m', t)
  {
    var m' := m.(counter := counter, phase := m.phase[t := p]);
    forall i | 0 <= i < |m.push| ensures PushSlotOk(m', i) { assert PushSlotOk(m, i); }
    forall i | 0 <= i < |m.pop| ensures PopSlotOk(m', i) { assert PopSlotOk(m, i); }
    forall i | 0 <= i < |m.push| && PushSlot(m, i) != Free && Pusher(m, i) != t ensures PushKept(m, m', i) { assert PushSlotOk(m, i); }
    forall i | 0 <= i < |m.pop| && PopSlot(m, i) != Free && Popper(m, i) != t ensures PopKept(m, m', i) { assert PopSlotOk(m, i); }
    assert StackInv(m');
  }

  /** The slots and the waiting threads are as they were, except for the phase of thread t. */
  ghost predicate SameSlots(m: Mem, m': Mem, t: nat) {
    && m'.push == m.push && m'.pop == m.pop && m'.pusher == m.pusher && m'.popper == m.popper && m'.at == m.at
    && |m'.phase| == |m.phase| && t < |m.at| && m.at[t] == Away
    && (forall u :: 0 <= u < |m.phase| && u != t ==> m'.phase[u] == m.phase[u])
    && Sized(m) && Sized(m') && |m.own| <= |m'.own|
    && (forall p :: 0 <= p < |m.own| ==> Data(m', p) == Data(m, p))
    && (forall p :: 0 <= p < |m.own| && (m.own[p].InPush? || m.own[p].InPop?) ==> m'.own[p] == m.own[p])
  }

  lemma SameSlotsKeep(m: Mem, m': Mem, t: nat)
    requires SlotsInv(m) && SameSlots(m, m', t) && NodesKept(m, m', t)
    ensures SlotsInv(m') && Rely(m, m', t)
  {
    forall i | 0 <= i < |m.push| ensures PushSlotOk(m', i) { assert PushSlotOk(m, i); }
    forall i | 0 <= i < |m.pop| ensures PopSlotOk(m', i) { assert PopSlotOk(m, i); }
    forall i | 0 <= i < |m.push| && PushSlot(m, i) != Free && Pusher(m, i) != t ensures PushKept(m, m', i) { assert PushSlotOk(m, i); }
    forall i | 0 <= i < |m.pop| && PopSlot(m, i) != Free && Popper(m, i) != t ensures PopKept(m, m', i) { assert PopSlotOk(m, i); }
  }

  /** Node p, which is not on the stack, goes to w, and does not get onto the stack. */
  lemma OffStackKeeps(m: Mem, m': Mem, p: Ptr, w: Where)
    requires StackInv(m) && Sized(m') && p < |m.own| && m.own[p] != OnStack && m.own[p] != Nowhere && w != Nowhere
    requires m'.own == m.own[p := w] && m'.top == m.top && m'.stack == m.stack && m'.data == m.data && m'.next == m.next
    ensures StackInv(m')
  {
  }

  function Offer(m: Mem, t: nat, i: nat, p: Ptr): Mem {
    SetAt(SetPusher(SetOwn(SetPush(m, i, Node(p)), p, InPush(i)), i, t), t, AtPush(i))
  }

  lemma OfferSlots(m: Mem, t: nat, i: nat, p: Ptr)
    requires SlotsInv(m) && i < |m.push| && m.push[i] == Free && 0 < p < |m.own| && m.own[p] == Hand(t)
    requires Stands(m, t, Away, Pending(Push(Data(m, p)), {}))
    ensures SlotsInv(Offer(m, t, i, p)) && Rely(m, Offer(m, t, i, p), t)
  {
    var m' := Offer(m, t, i, p);
    forall j | 0 <= j < |m.push| ensures PushSlotOk(m', j) { assert PushSlotOk(m, j); }
    forall j | 0 <= j < |m.pop| ensures PopSlotOk(m', j) { assert PopSlotOk(m, j); }
    forall j | 0 <= j < |m.push| && PushSlot(m, j) != Free && Pusher(m, j) != t ensures PushKept(m, m', j) { assert PushSlotOk(m, j); }
    forall j | 0 <= j < |m.pop| && PopSlot(m, j) != Free && Popper(m, j) != t ensures PopKept(m, m', j) { assert PopSlotOk(m, j); }
  }

  /** Thread t, which is away, puts its own node p into free slot i of coll_push. */
  lemma OfferKeeps(m: Mem, t: nat, i: nat, p: Ptr)
    requires MemInv(m) && i < |m.push| && m.push[i] == Free && 0 < p < |m.own| && m.own[p] == Hand(t)
    requires Stands(m, t, Away, Pending(Push(Data(m, p)), {}))
    ensures MemInv(Offer(m, t, i, p)) && Rely(m, Offer(m, t, i, p), t)
  {
    OfferSlots(m, t, i, p);
    OffStackKeeps(m, Offer(m, t, i, p), p, InPush(i));
  }

  function TakeBack(m: Mem, t: nat, i: nat, p: Ptr): Mem {
    SetAt(SetOwn(SetPush(m, i, Free), p, Hand(t)), t, Away)
  }

  lemma TakeBackSlots(m: Mem, t: nat, i: nat, p: Ptr)
    requires SlotsInv(m) && i < |m.push| && m.push[i] == Node(p) && m.pusher[i] == t && t < |m.at| && m.at[t] == AtPush(i)
    ensures SlotsInv(TakeBack(m, t, i, p)) && Rely(m, TakeBack(m, t, i, p), t)
  {
    var m' := TakeBack(m, t, i, p);
    assert PushSlotOk(m, i);
    forall j | 0 <= j < |m.push| ensures PushSlotOk(m', j) { assert PushSlotOk(m, j); }
    forall j | 0 <= j < |m.pop| ensures PopSlotOk(m', j) { assert PopSlotOk(m, j); }
    forall j | 0 <= j < |m.push| && PushSlot(m, j) != Free && Pusher(m, j) != t ensures PushKept(m, m', j) { assert PushSlotOk(m, j); }
    forall j | 0 <= j < |m.pop| && PopSlot(m, j) != Free && Popper(m, j) != t ensures PopKept(m, m', j) { assert PopSlotOk(m, j); }
  }

  lemma TakeBackKeeps(m: Mem, t: nat, i: nat, p: Ptr)
    requires MemInv(m) && i < |m.push| && m.push[i] == Node(p) && m.pusher[i] == t && t < |m.at| && m.at[t] == AtPush(i)
    ensures MemInv(TakeBack(m, t, i, p)) && Rely(m, TakeBack(m, t, i, p), t)
  {
    assert PushSlotOk(m, i);
    TakeBackSlots(m, t, i, p);
    OffStackKeeps(m, TakeBack(m, t, i, p), p, Hand(t));
  }

  function LeavePush(m: Mem, t: nat, i: nat): Mem {
    SetAt(SetPush(m, i, Free), t, Away)
  }

  lemma LeavePushKeeps(m: Mem, t: nat, i: nat)
    requires MemInv(m) && i < |m.push| && m.push[i] == Removed && m.pusher[i] == t && t < |m.at| && m.at[t] == AtPush(i)
    ensures MemInv(LeavePush(m, t, i)) && Rely(m, LeavePush(m, t, i), t)
  {
    var m' := LeavePush(m, t, i);
    forall j | 0 <= j < |m.push| ensures PushSlotOk(m', j) { assert PushSlotOk(m, j); }
    forall j | 0 <= j < |m.pop| ensures PopSlotOk(m', j) { assert PopSlotOk(m, j); }
    forall j | 0 <= j < |m.push| && PushSlot(m, j) != Free && Pusher(m, j) != t ensures PushKept(m, m', j) { assert PushSlotOk(m, j); }
    forall j | 0 <= j < |m.pop| && PopSlot(m, j) != Free && Popper(m, j) != t ensures PopKept(m, m', j) { assert PopSlotOk(m, j); }
    assert StackInv(m');
  }

  /** Thread t, a pop that is away, takes the node p offered in slot i; with it the offering push is done. */
  function Take(m: Mem, t: nat, i: nat, p: Ptr): Mem {
    After(SetOwn(SetPush(m, i, Removed), p, Taken(t)),
          [Commit(Pusher(m, i), Push(Data(m, p)), Pushed), Commit(t, Pop, Got(Data(m, p)))])
  }

  lemma TakePhases(m: Mem, t: nat, i: nat, p: Ptr)
    requires SlotsInv(m) && i < |m.push| && m.push[i] == Node(p) && Stands(m, t, Away, Pending(Pop, {}))
    ensures var u := Pusher(m, i);
      && u != t && u < |m.phase|
      && Take(m, t, i, p).phase == m.phase[u := Done(Push(Data(m, p)), Pushed)][t := Done(Pop, Got(Data(m, p)))]
  {
    assert PushSlotOk(m, i);
    TwoMoves(m.phase, Commit(Pusher(m, i), Push(Data(m, p)), Pushed), Commit(t, Pop, Got(Data(m, p))));
  }

  lemma TakeSlots(m: Mem, t: nat, i: nat, p: Ptr)
    requires SlotsInv(m) && i < |m.push| && m.push[i] == Node(p) && Stands(m, t, Away, Pending(Pop, {}))
    ensures SlotsInv(Take(m, t, i, p)) && Rely(m, Take(m, t, i, p), t)
  {
    var m' := Take(m, t, i, p);
    TakePhases(m, t, i, p);
    assert PushSlotOk(m, i);
    forall j | 0 <= j < |m.push| ensures PushSlotOk(m', j) { assert PushSlotOk(m, j); }
    forall j | 0 <= j < |m.pop| ensures PopSlotOk(m', j) { assert PopSlotOk(m, j); }
    forall j | 0 <= j < |m.push| && PushSlot(m, j) != Free && Pusher(m, j) != t ensures PushKept(m, m', j) { assert PushSlotOk(m, j); }
    forall j | 0 <= j < |m.pop| && PopSlot(m, j) != Free && Popper(m, j) != t ensures PopKept(m, m', j) { assert PopSlotOk(m, j); }
  }

  lemma TakeKeeps(m: Mem, t: nat, i: nat, p: Ptr)
    requires MemInv(m) && i < |m.push| && m.push[i] == Node(p) && Stands(m, t, Away, Pending(Pop, {}))
    ensures MemInv(Take(m, t, i, p)) && Rely(m, Take(m, t, i, p), t)
  {
    assert PushSlotOk(m, i);
    TakeSlots(m, t, i, p);
    TakePhases(m, t, i, p);
    OffStackKeeps(m, Take(m, t, i, p), p, Taken(t));
    TakePlaces(m, t, i, p);
  }

  lemma TakePlaces(m: Mem, t: nat, i: nat, p: Ptr)
    requires PlacesInv(m) && i < |m.push| && m.push[i] == Node(p) && p < |m.own| && m.own[p] == InPush(i)
    ensures PlacesInv(Take(m, t, i, p))
  {
  }

  function LeaveTomb(m: Mem, t: nat, i: nat): Mem {
    SetAt(SetPopper(SetPop(m, i, Tomb), i, t), t, AtPop(i))
  }

  lemma LeaveTombKeeps(m: Mem, t: nat, i: nat)
    requires MemInv(m) && i < |m.pop| && m.pop[i] == Free && Stands(m, t, Away, Pending(Pop, {}))
    ensures MemInv(LeaveTomb(m, t, i)) && Rely(m, LeaveTomb(m, t, i), t)
  {
    var m' := LeaveTomb(m, t, i);
    forall j | 0 <= j < |m.push| ensures PushSlotOk(m', j) { assert PushSlotOk(m, j); }
    forall j | 0 <= j < |m.pop| ensures PopSlotOk(m', j) { assert PopSlotOk(m, j); }
    forall j | 0 <= j < |m.push| && PushSlot(m, j) != Free && Pusher(m, j) != t ensures PushKept(m, m', j) { assert PushSlotOk(m, j); }
    forall j | 0 <= j < |m.pop| && PopSlot(m, j) != Free && Popper(m, j) != t ensures PopKept(m, m', j) { assert PopSlotOk(m, j); }
    assert StackInv(m');
  }

  function ClearTomb(m: Mem, t: nat, i: nat): Mem {
    SetAt(SetPop(m, i, Free), t, Away)
  }

  lemma ClearTombKeeps(m: Mem, t: nat, i: nat)
    requires MemInv(m) && i < |m.pop| && m.pop[i] == Tomb && m.popper[i] == t && t < |m.at| && m.at[t] == AtPop(i)
    ensures MemInv(ClearTomb(m, t, i)) && Rely(m, ClearTomb(m, t, i), t)
  {
    var m' := ClearTomb(m, t, i);
    forall j | 0 <= j < |m.push| ensures PushSlotOk(m', j) { assert PushSlotOk(m, j); }
    forall j | 0 <= j < |m.pop| ensures PopSlotOk(m', j) { assert PopSlotOk(m, j); }
    forall j | 0 <= j < |m.push| && PushSlot(m, j) != Free && Pusher(m, j) != t ensures PushKept(m, m', j) { assert PushSlotOk(m, j); }
    forall j | 0 <= j < |m.pop| && PopSlot(m, j) != Free && Popper(m, j) != t ensures PopKept(m, m', j) { assert PopSlotOk(m, j); }
    assert StackInv(m');
  }

  /** Thread t, a push that is away, feeds its node p to the pop waiting in slot i; with it that pop is done. */
  function Feed(m: Mem, t: nat, i: nat, p: Ptr): Mem {
    After(SetOwn(SetPop(m, i, Node(p)), p, InPop(i)),
          [Commit(t, Push(Data(m, p)), Pushed), Commit(Popper(m, i), Pop, Got(Data(m, p)))])
  }

  lemma FeedPhases(m: Mem, t: nat, i: nat, p: Ptr)
    requires SlotsInv(m) && i < |m.pop| && m.pop[i] == Tomb && Stands(m, t, Away, Pending(Push(Data(m, p)), {}))
    ensures var u := Popper(m, i);
      && u != t && u < |m.phase|
      && Feed(m, t, i, p).phase == m.phase[t := Done(Push(Data(m, p)), Pushed)][u := Done(Pop, Got(Data(m, p)))]
  {
    assert PopSlotOk(m, i);
    TwoMoves(m.phase, Commit(t, Push(Data(m, p)), Pushed), Commit(Popper(m, i), Pop, Got(Data(m, p))));
  }

  lemma FeedSlots(m: Mem, t: nat, i: nat, p: Ptr)
    requires SlotsInv(m) && i < |m.pop| && m.pop[i] == Tomb && Stands(m, t, Away, Pending(Push(Data(m, p)), {}))
    requires 0 < p < |m.own| && m.own[p] == Hand(t)
    ensures SlotsInv(Feed(m, t, i, p)) && Rely(m, Feed(m, t, i, p), t)
  {
    var m' := Feed(m, t, i, p);
    FeedPhases(m, t, i, p);
    assert PopSlotOk(m, i);
    forall j | 0 <= j < |m.push| ensures PushSlotOk(m', j) { assert PushSlotOk(m, j); }
    forall j | 0 <= j < |m.pop| ensures PopSlotOk(m', j) { assert PopSlotOk(m, j); }
    forall j | 0 <= j < |m.push| && PushSlot(m, j) != Free && Pusher(m, j) != t ensures PushKept(m, m', j) { assert PushSlotOk(m, j); }
    forall j | 0 <= j < |m.pop| && PopSlot(m, j) != Free && Popper(m, j) != t ensures PopKept(m, m', j) { assert PopSlotOk(m, j); }
  }

  lemma FeedKeeps(m: Mem, t: nat, i: nat, p: Ptr)
    requires MemInv(m) && i < |m.pop| && m.pop[i] == Tomb && Stands(m, t, Away, Pending(Push(Data(m, p)), {}))
    requires 0 < p < |m.own| && m.own[p] == Hand(t)
    ensures MemInv(Feed(m, t, i, p)) && Rely(m, Feed(m, t, i, p), t)
  {
    FeedSlots(m, t, i, p);
    FeedPhases(m, t, i, p);
    OffStackKeeps(m, Feed(m, t, i, p), p, InPop(i));
  }

  /** Thread t picks up the node it has been fed. */
  function PickUp(m: Mem, t: nat, i: nat, p: Ptr): Mem {
    SetAt(SetOwn(SetPop(m, i, Free), p, Taken(t)), t, Away)
  }

  lemma PickUpSlots(m: Mem, t: nat, i: nat, p: Ptr)
    requires SlotsInv(m) && i < |m.pop| && m.pop[i] == Node(p) && m.popper[i] == t && t < |m.at| && m.at[t] == AtPop(i)
    ensures SlotsInv(PickUp(m, t, i, p)) && Rely(m, PickUp(m, t, i, p), t)
  {
    var m' := PickUp(m, t, i, p);
    assert PopSlotOk(m, i);
    forall j | 0 <= j < |m.push| ensures PushSlotOk(m', j) { assert PushSlotOk(m, j); }
    forall j | 0 <= j < |m.pop| ensures PopSlotOk(m', j) { assert PopSlotOk(m, j); }
    forall j | 0 <= j < |m.push| && PushSlot(m, j) != Free && Pusher(m, j) != t ensures PushKept(m, m', j) { assert PushSlotOk(m, j); }
    forall j | 0 <= j < |m.pop| && PopSlot(m, j) != Free && Popper(m, j) != t ensures PopKept(m, m', j) { assert PopSlotOk(m, j); }
  }

  lemma PickUpKeeps(m: Mem, t: nat, i: nat, p: Ptr)
    requires MemInv(m) && i < |m.pop| && m.pop[i] == Node(p) && m.popper[i] == t && t < |m.at| && m.at[t] == AtPop(i)
    ensures MemInv(PickUp(m, t, i, p)) && Rely(m, PickUp(m, t, i, p), t)
  {
    assert PopSlotOk(m, i);
    PickUpSlots(m, t, i, p);
    OffStackKeeps(m, PickUp(m, t, i, p), p, Taken(t));
  }

  lemma WriteNextKeeps(m: Mem, t: nat, p: Ptr, q: Ptr)
    requires MemInv(m) && 0 < p < |m.own| && m.own[p] == Hand(t) && t < |m.at| && m.at[t] == Away
    ensures var m' := m.(next := m.next[p := q]); MemInv(m') && Rely(m, m', t)
  {
    var m' := m.(next := m.next[p := q]);
    SameSlotsKeep(m, m', t);
    assert p !in m.stack;
    assert StackInv(m');
  }

  /** Memory after thread t has swung top to its node p. */
  function PushTop(m: Mem, t: nat, p: Ptr, e: Event<Op, Ret>): Mem {
    After(SetOwn(m.(top := p, stack := [p] + m.stack), p, OnStack), [e])
  }

  lemma PushTopStack(m: Mem, t: nat, p: Ptr, e: Event<Op, Ret>)
    requires StackInv(m) && 0 < p < |m.own| && m.own[p] == Hand(t) && Next(m, p) == m.top
    ensures StackInv(PushTop(m, t, p, e))
  {
    var m' := PushTop(m, t, p, e);
    OneMove(m.phase, e);
    assert p !in m.stack;
    assert forall i :: 0 < i < |m'.stack| ==> m'.stack[i] == m.stack[i - 1];
    forall i | 0 <= i < |m'.stack| ensures m'.next[m'.stack[i]] == Below(m'.stack, i) {
      if i > 0 { assert m.next[m.stack[i - 1]] == Below(m.stack, i - 1); }
    }
  }

  lemma PushTopPlaces(m: Mem, t: nat, p: Ptr, e: Event<Op, Ret>)
    requires StackInv(m) && PlacesInv(m) && 0 < p < |m.own| && m.own[p] == Hand(t)
    ensures PlacesInv(PushTop(m, t, p, e))
  {
    var m' := PushTop(m, t, p, e);
    OneMove(m.phase, e);
    assert m'.stack[0] == p;
    forall q | 0 <= q < |m'.own| && m'.own[q] == OnStack ensures q in m'.stack {
      if q != p {
        var i :| 0 <= i < |m.stack| && m.stack[i] == q;
        assert m'.stack[i + 1] == q;
      }
    }
  }

  lemma PushTopSlots(m: Mem, t: nat, p: Ptr, e: Event<Op, Ret>)
    requires StackInv(m) && 0 < p < |m.own| && m.own[p] == Hand(t) && e.t == t < |m.at| && m.at[t] == Away
    ensures SameSlots(m, PushTop(m, t, p, e), t) && NodesKept(m, PushTop(m, t, p, e), t)
  {
    OneMove(m.phase, e);
  }

  lemma PushTopKeeps(m: Mem, t: nat, p: Ptr, e: Event<Op, Ret>)
    requires MemInv(m) && 0 < p < |m.own| && m.own[p] == Hand(t) && Next(m, p) == m.top
    requires e.t == t < |m.at| && m.at[t] == Away
    ensures MemInv(PushTop(m, t, p, e)) && Rely(m, PushTop(m, t, p, e), t)
  {
    PushTopStack(m, t, p, e);
    PushTopPlaces(m, t, p, e);
    PushTopSlots(m, t, p, e);
    SameSlotsKeep(m, PushTop(m, t, p, e), t);
  }

  function PopTop(m: Mem, t: nat, p: Ptr, e: Event<Op, Ret>): Mem {
    After(SetOwn(m.(top := p, stack := if m.stack == [] then [] else m.stack[1..]), m.top, Taken(t)), [e])
  }

  lemma PopTopStack(m: Mem, t: nat, p: Ptr, e: Event<Op, Ret>)
    requires StackInv(m) && m.stack != [] && p == Next(m, m.top)
    ensures StackInv(PopTop(m, t, p, e))
  {
    var m' := PopTop(m, t, p, e);
    OneMove(m.phase, e);
    assert m.next[m.stack[0]] == Below(m.stack, 0);
    assert forall i :: 0 <= i < |m'.stack| ==> m'.stack[i] == m.stack[i + 1];
    forall i | 0 <= i < |m'.stack| ensures m'.next[m'.stack[i]] == Below(m'.stack, i) {
      assert m.next[m.stack[i + 1]] == Below(m.stack, i + 1);
    }
  }

  lemma PopTopPlaces(m: Mem, t: nat, p: Ptr, e: Event<Op, Ret>)
    requires StackInv(m) && PlacesInv(m) && m.stack != []
    ensures PlacesInv(PopTop(m, t, p, e))
  {
    var m' := PopTop(m, t, p, e);
    OneMove(m.phase, e);
    forall q | 0 <= q < |m'.own| && m'.own[q] == OnStack ensures q in m'.stack {
      var i :| 0 <= i < |m.stack| && m.stack[i] == q;
      assert m'.stack[i - 1] == q;
    }
  }

  lemma PopTopKeeps(m: Mem, t: nat, p: Ptr, e: Event<Op, Ret>)
    requires MemInv(m) && m.stack != [] && p == Next(m, m.top) && e.t == t < |m.at| && m.at[t] == Away
    ensures MemInv(PopTop(m, t, p, e)) && Rely(m, PopTop(m, t, p, e), t)
  {
    PopTopStack(m, t, p, e);
    PopTopPlaces(m, t, p, e);
    PopTopSlots(m, t, p, e);
    SameSlotsKeep(m, PopTop(m, t, p, e), t);
  }

  lemma PopTopSlots(m: Mem, t: nat, p: Ptr, e: Event<Op, Ret>)
    requires StackInv(m) && m.stack != [] && e.t == t < |m.at| && m.at[t] == Away
    ensures SameSlots(m, PopTop(m, t, p, e), t) && NodesKept(m, PopTop(m, t, p, e), t)
  {
    OneMove(m.phase, e);
    TopNode(m);
  }

  lemma FreshKeeps(m: Mem, v: int, t: nat)
    requires MemInv(m) && t < |m.at| && m.at[t] == Away
    ensures var m' := m.(data := m.data + [v], next := m.next + [NULL], own := m.own + [Hand(t)]);
      MemInv(m') && Rely(m, m', t)
  {
    var m' := m.(data := m.data + [v], next := m.next + [NULL], own := m.own + [Hand(t)]);
    SameSlotsKeep(m, m', t);
    FreshStack(m, m', v, t);
    FreshPlaces(m, m', v, t);
  }

  lemma FreshStack(m: Mem, m': Mem, v: int, t: nat)
    requires StackInv(m) && m' == m.(data := m.data + [v], next := m.next + [NULL], own := m.own + [Hand(t)])
    ensures StackInv(m')
  {
  }

  lemma FreshPlaces(m: Mem, m': Mem, v: int, t: nat)
    requires MemInv(m) && m' == m.(data := m.data + [v], next := m.next + [NULL], own := m.own + [Hand(t)])
    ensures PlacesInv(m')
  {
  }

  /** A call starts: its node, then its phase. */
  lemma EnterThread(m: Mem, op: Op, t: nat)
    requires Sized(m) && Stands(m, t, Away, Quiet)
    ensures var (m1, th') := Enter(m, op, t);
      var m' := m1.(phase := m1.phase[t := Pending(op, {})]);
      After(m1, [Call(t, op)]) == m' && ThreadInv(m', th', t)
  {
    OneMove(m.phase, Call(t, op));
  }

  lemma FreshContents(m: Mem, op: Op, t: nat)
    requires StackInv(m)
    ensures var m1 := Enter(m, op, t).0; Contents(m1) == Contents(m) && m1.at == m.at && m1.counter == m.counter
  {
  }

  /** A call starts: its node, then its phase. */
  lemma EnterKeeps(m: Mem, op: Op, t: nat)
    requires MemInv(m) && Stands(m, t, Away, Quiet)
    ensures var (m1, th') := Enter(m, op, t);
      var m' := After(m1, [Call(t, op)]);
      && MemInv(m1) && Rely(m, m1, t) && MemInv(m') && Rely(m1, m', t)
      && ThreadInv(m', th', t) && Contents(m') == Contents(m)
  {
    var m1 := Enter(m, op, t).0;
    if op.Push? { FreshKeeps(m, op.v, t); } else { NothingKeeps(m, t); }
    EnterThread(m, op, t);
    FreshContents(m, op, t);
    PhaseKeeps(m1, t, m1.counter, Pending(op, {}));
    assert m1.(counter := m1.counter, phase := m1.phase[t := Pending(op, {})]) == m1.(phase := m1.phase[t := Pending(op, {})]);
  }

  function Values(data: seq<int>, s: seq<Ptr>): seq<int> {
    seq(|s|, i requires 0 <= i < |s| => if s[i] < |data| then data[s[i]] else 0)
  }

  /** The values on the stack, top first. */
  function Contents(m: Mem): seq<int> {
    Values(m.data, m.stack)
  }

  /** The value after event e, and what it means that events es take the value from a to a'. */
  function ValueBy(a: seq<int>, e: Event<Op, Ret>): seq<int> {
    if e.Commit? then StackSpec(a, e.op).0 else a
  }

  predicate Runs(a: seq<int>, es: seq<Event<Op, Ret>>, a': seq<int>)
    decreases |es|
  {
    if es == [] then a' == a else Right(StackSpec, a, es[0]) && Runs(ValueBy(a, es[0]), es[1..], a')
  }

  /** What a client sees of a step. */
  ghost predicate Explained(m: Mem, th: Local, t: nat)
    requires th.Busy?
  {
    var (m', th', es) := Step(m, th, t);
    Runs(Contents(m), es, Contents(m'))
  }

  // ---------------------------------------------------------------- one step

  ghost predicate StepKept(m: Mem, th: Local, t: nat)
    requires th.Busy?
  {
    var (m1, th', es) := Step(m, th, t);
    var m' := After(m1, es);
    MemInv(m') && Rely(m, m', t) && ThreadInv(m', th', t)
  }

  /** An instruction that changes nothing shared and makes no event. */
  ghost predicate ReadKept(m: Mem, th: Local, t: nat)
    requires th.Busy?
  {
    var (m', th', es) := Step(m, th, t);
    m' == m && es == [] && ThreadInv(m, th', t)
  }

  lemma ReadKeeps(m: Mem, th: Local, t: nat)
    requires MemInv(m) && th.Busy? && ReadKept(m, th, t)
    ensures StepKept(m, th, t)
  {
    NothingKeeps(m, t);
    assert After(m, []) == m;
  }

  lemma TopNode(m: Mem)
    requires StackInv(m) && m.top != NULL
    ensures m.stack != [] && m.top == m.stack[0] && 0 < m.top < |m.own| && m.own[m.top] == OnStack
  {
  }

  lemma PushReadsKeep(m: Mem, th: Local, t: nat)
    requires Sized(m) && th.Busy? && ThreadInv(m, th, t)
    requires th.pc.PushRead? || th.pc.FeedLoad? || th.pc.OfferLoad? || th.pc.WaitLoad?
    ensures ReadKept(m, th, t)
  {
  }

  /** A compare-and-swap that fails. */
  lemma PushFailsKeep(m: Mem, th: Local, t: nat)
    requires Sized(m) && th.Busy? && ThreadInv(m, th, t)
    requires (th.pc.PushCas? && m.top != th.oldTop) || (th.pc.FeedCas? && PopSlot(m, Index(m, th)) != Tomb)
          || (th.pc.OfferCas? && PushSlot(m, Index(m, th)) != Free)
          || (th.pc.Withdraw? && PushSlot(m, Index(m, th)) != Node(th.node))
    ensures ReadKept(m, th, t)
  {
  }

  lemma PopReadsKeep(m: Mem, th: Local, t: nat)
    requires StackInv(m) && th.Busy? && ThreadInv(m, th, t)
    requires th.pc.PopRead? || th.pc.PopCheck? || th.pc.PopNext? || th.pc.TakeLoad? || th.pc.TombLoad? || th.pc.TombWait?
    requires th.pc.PopRead? ==> m.top != NULL
    ensures ReadKept(m, th, t)
  {
    if m.top != NULL { TopNode(m); }
  }

  lemma PopFailsKeep(m: Mem, th: Local, t: nat)
    requires Sized(m) && th.Busy? && ThreadInv(m, th, t)
    requires (th.pc.PopCas? && m.top != th.oldTop) || (th.pc.TakeCas? && PushSlot(m, Index(m, th)) != Node(th.p))
          || (th.pc.TombCas? && PopSlot(m, Index(m, th)) != Free)
          || (th.pc.TombWithdraw? && PopSlot(m, Index(m, th)) != Tomb)
          || th.pc.PopData?
    ensures ReadKept(m, th, t)
  {
  }

  lemma PeekReadsKeep(m: Mem, th: Local, t: nat)
    requires StackInv(m) && th.Busy? && ThreadInv(m, th, t)
    requires (th.pc.PeekRead? && m.top != NULL) || (th.pc.PeekCheck? && m.top != th.oldTop) || th.pc.PeekData?
    ensures ReadKept(m, th, t)
  {
  }

  // ---------------------------------------------------------------- steps with an effect

  lemma OneRun(a: seq<int>, e: Event<Op, Ret>, a': seq<int>)
    requires Right(StackSpec, a, e) && a' == ValueBy(a, e)
    ensures Runs(a, [e], a')
  {
    assert [e][1..] == [];
  }

  /** A push and the pop it meets: the stack is as before. */
  lemma MeetingRun(a: seq<int>, t: nat, u: nat, v: int)
    ensures Runs(a, [Commit(t, Push(v), Pushed), Commit(u, Pop, Got(v))], a)
  {
    var e, f := Commit(t, Push(v), Pushed), Commit(u, Pop, Got(v));
    assert [e, f][1..] == [f];
    assert ([v] + a)[1..] == a;
    OneRun([v] + a, f, a);
  }

  /** Only the phase of t and the counter change. */
  lemma EventKeeps(m: Mem, th: Local, t: nat, e: Event<Op, Ret>, th': Local)
    requires MemInv(m) && th.Busy? && e.t == t && t < |m.at| && m.at[t] == Away
    requires Step(m, th, t) == (m, th', [e]) && ThreadInv(After(m, [e]), th', t)
    requires Right(StackSpec, Contents(m), e) && ValueBy(Contents(m), e) == Contents(m)
    ensures StepKept(m, th, t) && Explained(m, th, t)
  {
    OneMove(m.phase, e);
    PhaseKeeps(m, t, m.counter, Advance(m.phase[t], e));
    assert After(m, [e]) == m.(counter := m.counter, phase := m.phase[t := Advance(m.phase[t], e)]);
    OneRun(Contents(m), e, Contents(m));
  }

  lemma EmptyKeeps(m: Mem, th: Local, t: nat)
    requires MemInv(m) && th.Busy? && ThreadInv(m, th, t) && (th.pc.PopRead? || th.pc.PeekRead?) && m.top == NULL
    ensures StepKept(m, th, t) && Explained(m, th, t)
  {
    var e: Event<Op, Ret> := Commit(t, th.op, Empty);
    OneMove(m.phase, e);
    assert m.stack == [];
    EventKeeps(m, th, t, e, Step(m, th, t).1);
  }

  lemma PeekKeeps(m: Mem, th: Local, t: nat)
    requires MemInv(m) && th.Busy? && ThreadInv(m, th, t) && th.pc.PeekCheck? && m.top == th.oldTop
    ensures StepKept(m, th, t) && Explained(m, th, t)
  {
    var e: Event<Op, Ret> := Commit(t, th.op, Got(Data(m, th.oldTop)));
    OneMove(m.phase, e);
    TopNode(m);
    EventKeeps(m, th, t, e, Step(m, th, t).1);
  }

  lemma ReturnKeeps(m: Mem, th: Local, t: nat)
    requires MemInv(m) && th.Busy? && ThreadInv(m, th, t)
    requires th.pc.RetPush? || th.pc.RetPop? || th.pc.RetPeek? || th.pc.RetEmpty?
    ensures StepKept(m, th, t) && Explained(m, th, t)
  {
    var e := Step(m, th, t).2[0];
    OneMove(m.phase, e);
    EventKeeps(m, th, t, e, Idle);
  }

  lemma PositionThread(m: Mem, th: Local, t: nat)
    requires Sized(m) && th.Busy? && ThreadInv(m, th, t) && (th.pc.AddPos? || th.pc.RemPos?)
    ensures var (m1, th', es) := Step(m, th, t);
      m1 == m.(counter := Increment(m.counter)) && es == [] && ThreadInv(m1, th', t) && t < |m.at| && m.at[t] == Away
  {
  }

  lemma PositionKeeps(m: Mem, th: Local, t: nat)
    requires MemInv(m) && th.Busy? && ThreadInv(m, th, t) && (th.pc.AddPos? || th.pc.RemPos?)
    ensures StepKept(m, th, t) && Explained(m, th, t)
  {
    PositionThread(m, th, t);
    PhaseKeeps(m, t, Increment(m.counter), m.phase[t]);
    var m' := m.(counter := Increment(m.counter));
    assert m' == m.(counter := Increment(m.counter), phase := m.phase[t := m.phase[t]]);
    assert After(m', []) == m';
  }

  lemma PushWriteKeeps(m: Mem, th: Local, t: nat)
    requires MemInv(m) && th.Busy? && ThreadInv(m, th, t) && th.pc.PushWrite?
    ensures StepKept(m, th, t) && Explained(m, th, t)
  {
    WriteNextKeeps(m, t, th.node, th.oldTop);
    assert After(m.(next := m.next[th.node := th.oldTop]), []) == m.(next := m.next[th.node := th.oldTop]);
  }

  lemma PushCasThread(m: Mem, th: Local, t: nat)
    requires Sized(m) && th.Busy? && ThreadInv(m, th, t) && th.pc.PushCas? && m.top == th.oldTop
    ensures var (m1, th', es) := Step(m, th, t);
      var e: Event<Op, Ret> := Commit(t, th.op, Pushed);
      && es == [e] && After(m1, es) == PushTop(m, t, th.node, e) && ThreadInv(After(m1, es), th', t)
      && m1.data == m.data && m1.stack == [th.node] + m.stack
  {
    OneMove(m.phase, Commit(t, th.op, Pushed));
  }

  lemma PushCasKeeps(m: Mem, th: Local, t: nat)
    requires MemInv(m) && th.Busy? && ThreadInv(m, th, t) && th.pc.PushCas? && m.top == th.oldTop
    ensures StepKept(m, th, t) && Explained(m, th, t)
  {
    var e: Event<Op, Ret> := Commit(t, th.op, Pushed);
    PushCasThread(m, th, t);
    PushTopKeeps(m, t, th.node, e);
    ConsValues(m.data, m.stack, th.node);
    OneRun(Contents(m), e, [th.op.v] + Contents(m));
  }

  lemma ConsValues(data: seq<int>, s: seq<Ptr>, p: Ptr)
    requires p < |data|
    ensures Values(data, [p] + s) == [data[p]] + Values(data, s)
  {
  }

  lemma TailValues(data: seq<int>, s: seq<Ptr>)
    requires s != []
    ensures Values(data, s[1..]) == Values(data, s)[1..]
  {
  }

  lemma PopCasKeeps(m: Mem, th: Local, t: nat)
    requires MemInv(m) && th.Busy? && ThreadInv(m, th, t) && th.pc.PopCas? && m.top == th.oldTop
    ensures StepKept(m, th, t) && Explained(m, th, t)
  {
    var e: Event<Op, Ret> := Commit(t, th.op, Got(Data(m, th.oldTop)));
    var m1 := Step(m, th, t).0;
    OneMove(m.phase, e);
    TopNode(m);
    PopTopKeeps(m, t, th.newTop, e);
    TailValues(m.data, m.stack);
    OneRun(Contents(m), e, Contents(m1));
  }

  lemma FeedCasThread(m: Mem, th: Local, t: nat)
    requires Sized(m) && th.Busy? && ThreadInv(m, th, t) && th.pc.FeedCas? && PopSlot(m, Index(m, th)) == Tomb
    requires Popper(m, Index(m, th)) != t && Popper(m, Index(m, th)) < |m.phase|
    requires Feed(m, t, Index(m, th), th.node).phase
          == m.phase[t := Done(Push(Data(m, th.node)), Pushed)][Popper(m, Index(m, th)) := Done(Pop, Got(Data(m, th.node)))]
    ensures var (m1, th', es) := Step(m, th, t);
      After(m1, es) == Feed(m, t, Index(m, th), th.node) && m1.stack == m.stack && m1.data == m.data
      && ThreadInv(Feed(m, t, Index(m, th), th.node), th', t)
  {
  }

  lemma FeedCasKeeps(m: Mem, th: Local, t: nat)
    requires MemInv(m) && th.Busy? && ThreadInv(m, th, t) && th.pc.FeedCas? && PopSlot(m, Index(m, th)) == Tomb
    ensures StepKept(m, th, t) && Explained(m, th, t)
  {
    var x := Index(m, th);
    FeedKeeps(m, t, x, th.node);
    FeedPhases(m, t, x, th.node);
    FeedCasThread(m, th, t);
    MeetingRun(Contents(m), t, Popper(m, x), th.op.v);
  }

  lemma TakeCasKeeps(m: Mem, th: Local, t: nat)
    requires MemInv(m) && th.Busy? && ThreadInv(m, th, t) && th.pc.TakeCas? && PushSlot(m, Index(m, th)) == Node(th.p)
    ensures StepKept(m, th, t) && Explained(m, th, t)
  {
    var x := Index(m, th);
    assert PushSlotOk(m, x);
    TakeKeeps(m, t, x, th.p);
    TakePhases(m, t, x, th.p);
    MeetingRun(Contents(m), Pusher(m, x), t, Data(m, th.p));
  }

  lemma OfferCasThread(m: Mem, th: Local, t: nat)
    requires Sized(m) && th.Busy? && ThreadInv(m, th, t) && th.pc.OfferCas? && PushSlot(m, Index(m, th)) == Free
    ensures var (m1, th', es) := Step(m, th, t);
      m1 == Offer(m, t, Index(m, th), th.node) && es == [] && ThreadInv(m1, th', t)
  {
  }

  lemma OfferCasKeeps(m: Mem, th: Local, t: nat)
    requires MemInv(m) && th.Busy? && ThreadInv(m, th, t) && th.pc.OfferCas? && PushSlot(m, Index(m, th)) == Free
    ensures StepKept(m, th, t) && Explained(m, th, t)
  {
    OfferKeeps(m, t, Index(m, th), th.node);
    OfferCasThread(m, th, t);
    assert After(Offer(m, t, Index(m, th), th.node), []) == Offer(m, t, Index(m, th), th.node);
  }

  lemma WithdrawKeeps(m: Mem, th: Local, t: nat)
    requires MemInv(m) && th.Busy? && ThreadInv(m, th, t) && th.pc.Withdraw? && PushSlot(m, Index(m, th)) == Node(th.node)
    ensures StepKept(m, th, t) && Explained(m, th, t)
  {
    TakeBackKeeps(m, t, Index(m, th), th.node);
    assert After(TakeBack(m, t, Index(m, th), th.node), []) == TakeBack(m, t, Index(m, th), th.node);
  }

  lemma ClearPushKeeps(m: Mem, th: Local, t: nat)
    requires MemInv(m) && th.Busy? && ThreadInv(m, th, t) && th.pc.ClearPush?
    ensures StepKept(m, th, t) && Explained(m, th, t)
  {
    LeavePushKeeps(m, t, Index(m, th));
    assert After(LeavePush(m, t, Index(m, th)), []) == LeavePush(m, t, Index(m, th));
  }

  lemma TombCasThread(m: Mem, th: Local, t: nat)
    requires Sized(m) && th.Busy? && ThreadInv(m, th, t) && th.pc.TombCas? && PopSlot(m, Index(m, th)) == Free
    ensures var (m1, th', es) := Step(m, th, t);
      m1 == LeaveTomb(m, t, Index(m, th)) && es == [] && ThreadInv(m1, th', t)
  {
  }

  lemma TombCasKeeps(m: Mem, th: Local, t: nat)
    requires MemInv(m) && th.Busy? && ThreadInv(m, th, t) && th.pc.TombCas? && PopSlot(m, Index(m, th)) == Free
    ensures StepKept(m, th, t) && Explained(m, th, t)
  {
    LeaveTombKeeps(m, t, Index(m, th));
    TombCasThread(m, th, t);
    assert After(LeaveTomb(m, t, Index(m, th)), []) == LeaveTomb(m, t, Index(m, th));
  }

  lemma TombWithdrawKeeps(m: Mem, th: Local, t: nat)
    requires MemInv(m) && th.Busy? && ThreadInv(m, th, t) && th.pc.TombWithdraw? && PopSlot(m, Index(m, th)) == Tomb
    ensures StepKept(m, th, t) && Explained(m, th, t)
  {
    ClearTombKeeps(m, t, Index(m, th));
    assert After(ClearTomb(m, t, Index(m, th)), []) == ClearTomb(m, t, Index(m, th));
  }

  lemma ClearPopKeeps(m: Mem, th: Local, t: nat)
    requires MemInv(m) && th.Busy? && ThreadInv(m, th, t) && th.pc.ClearPop?
    ensures StepKept(m, th, t) && Explained(m, th, t)
  {
    assert PopSlotOk(m, Index(m, th));
    PickUpKeeps(m, t, Index(m, th), th.p);
    assert After(PickUp(m, t, Index(m, th), th.p), []) == PickUp(m, t, Index(m, th), th.p);
  }

  lemma PushStepRefines(m: Mem, th: Local, t: nat)
    requires MemInv(m) && th.Busy? && ThreadInv(m, th, t)
    requires InPushCall(th.pc) || th.pc.PushCas? || th.pc.WaitLoad? || th.pc.Withdraw? || th.pc.ClearPush?
    ensures StepKept(m, th, t) && Explained(m, th, t)
  {
    var x := Index(m, th);
    if th.pc.AddPos? { PositionKeeps(m, th, t); }
    else if th.pc.PushWrite? { PushWriteKeeps(m, th, t); }
    else if th.pc.ClearPush? { ClearPushKeeps(m, th, t); }
    else if th.pc.PushCas? && m.top == th.oldTop { PushCasKeeps(m, th, t); }
    else if th.pc.FeedCas? && PopSlot(m, x) == Tomb { FeedCasKeeps(m, th, t); }
    else if th.pc.OfferCas? && PushSlot(m, x) == Free { OfferCasKeeps(m, th, t); }
    else if th.pc.Withdraw? && PushSlot(m, x) == Node(th.node) { WithdrawKeeps(m, th, t); }
    else {
      if th.pc.PushCas? || th.pc.FeedCas? || th.pc.OfferCas? || th.pc.Withdraw? { PushFailsKeep(m, th, t); }
      else { PushReadsKeep(m, th, t); }
      ReadKeeps(m, th, t);
    }
  }

  lemma PopStepRefines(m: Mem, th: Local, t: nat)
    requires MemInv(m) && th.Busy? && ThreadInv(m, th, t)
    requires th.pc.PopRead? || th.pc.PopCheck? || th.pc.PopNext? || th.pc.PopCas? || th.pc.RemPos? || th.pc.TakeLoad? ||
             th.pc.TakeCas? || th.pc.TombLoad? || th.pc.TombCas? || th.pc.TombWait? || th.pc.TombWithdraw? ||
             th.pc.ClearPop? || th.pc.PopData?
    ensures StepKept(m, th, t) && Explained(m, th, t)
  {
    var x := Index(m, th);
    if th.pc.RemPos? { PositionKeeps(m, th, t); }
    else if th.pc.PopRead? && m.top == NULL { EmptyKeeps(m, th, t); }
    else if th.pc.PopCas? && m.top == th.oldTop { PopCasKeeps(m, th, t); }
    else if th.pc.TakeCas? && PushSlot(m, x) == Node(th.p) { TakeCasKeeps(m, th, t); }
    else if th.pc.TombCas? && PopSlot(m, x) == Free { TombCasKeeps(m, th, t); }
    else if th.pc.TombWithdraw? && PopSlot(m, x) == Tomb { TombWithdrawKeeps(m, th, t); }
    else if th.pc.ClearPop? { ClearPopKeeps(m, th, t); }
    else {
      if th.pc.PopCas? || th.pc.TakeCas? || th.pc.TombCas? || th.pc.TombWithdraw? || th.pc.PopData? { PopFailsKeep(m, th, t); }
      else { PopReadsKeep(m, th, t); }
      ReadKeeps(m, th, t);
    }
  }

  /** Each instruction is invisible, or takes effect for its own call, or, where a push and a pop meet, for both. */
  lemma StepRefinesStack(m: Mem, th: Local, t: nat)
    requires MemInv(m) && th.Busy? && ThreadInv(m, th, t)
    ensures StepKept(m, th, t) && Explained(m, th, t)
  {
    if th.pc.RetPush? || th.pc.RetPop? || th.pc.RetPeek? || th.pc.RetEmpty? { ReturnKeeps(m, th, t); }
    else if InPushCall(th.pc) || th.pc.PushCas? || th.pc.WaitLoad? || th.pc.Withdraw? || th.pc.ClearPush? {
      PushStepRefines(m, th, t);
    }
    else if th.pc.Crash? {
      NothingKeeps(m, t);
      assert After(m, []) == m;
    }
    else if th.pc.PeekRead? && m.top == NULL { EmptyKeeps(m, th, t); }
    else if th.pc.PeekCheck? && m.top == th.oldTop { PeekKeeps(m, th, t); }
    else if th.pc.PeekRead? || th.pc.PeekCheck? || th.pc.PeekData? {
      PeekReadsKeep(m, th, t);
      ReadKeeps(m, th, t);
    }
    else { PopStepRefines(m, th, t); }
  }

  // ---------------------------------------------------------------- whole runs

  /** The trace agrees with the value a and the phases. */
  ghost predicate Tells(a0: seq<int>, tr: seq<Event<Op, Ret>>, a: seq<int>, phase: seq<Phase<Op, Ret>>) {
    Legal(StackSpec, a0, tr) && ValueAfter(StackSpec, a0, tr) == a && PhasesAre(tr, phase)
  }

  lemma {:induction false} AppendEvents(a0: seq<int>, tr: seq<Event<Op, Ret>>, a: seq<int>, es: seq<Event<Op, Ret>>, a': seq<int>,
                                        phase: seq<Phase<Op, Ret>>, whole: seq<Event<Op, Ret>>)
    requires Tells(a0, tr, a, phase) && Runs(a, es, a') && whole == tr + es
    requires forall i :: 0 <= i < |es| ==> es[i].t < |phase|
    ensures |MovedBy(phase, es)| == |phase| && Tells(a0, whole, a', MovedBy(phase, es))
    decreases |es|
  {
    if es == [] {
      assert whole == tr;
    } else {
      AppendOne(a0, tr, a, es[0], phase);
      Regroup(tr, es);
      AppendEvents(a0, tr + [es[0]], ValueBy(a, es[0]), es[1..], a', Moved(phase, es[0]), whole);
    }
  }

  lemma Regroup<T>(tr: seq<T>, es: seq<T>)
    requires es != []
    ensures tr + es == tr + [es[0]] + es[1..]
  {
  }

  ghost predicate PhasesAre(tr: seq<Event<Op, Ret>>, phase: seq<Phase<Op, Ret>>) {
    forall t: nat :: PhaseOf(tr, t) == if t < |phase| then phase[t] else Quiet
  }

  lemma AppendOne(a0: seq<int>, tr: seq<Event<Op, Ret>>, a: seq<int>, e: Event<Op, Ret>, phase: seq<Phase<Op, Ret>>)
    requires Tells(a0, tr, a, phase) && Right(StackSpec, a, e) && e.t < |phase|
    ensures Tells(a0, tr + [e], ValueBy(a, e), Moved(phase, e))
  {
    AppendEvent(StackSpec, a0, tr, e);
  }

  ghost predicate ThreadsInv(m: Mem, threads: seq<Local>) {
    |threads| == |m.at| == |m.phase| && forall t :: 0 <= t < |threads| ==> ThreadInv(m, threads[t], t)
  }

  ghost predicate History(m: Mem, trace: seq<Event<Op, Ret>>) {
    Tells([], trace, Contents(m), m.phase)
  }

  ghost predicate Inv(s: State) {
    MemInv(s.mem) && ThreadsInv(s.mem, s.threads) && History(s.mem, s.trace)
  }

  lemma ThreadsKept(m: Mem, m': Mem, threads: seq<Local>, t: nat, th': Local)
    requires SlotsInv(m) && ThreadsInv(m, threads) && t < |threads| && Rely(m, m', t) && ThreadInv(m', th', t)
    ensures ThreadsInv(m', threads[t := th'])
  {
    var threads' := threads[t := th'];
    forall u | 0 <= u < |threads'| ensures ThreadInv(m', threads'[u], u) {
      if u != t { ThreadStable(m, m', t, threads[u], u); }
    }
  }

  /** Events name threads that exist. */
  lemma EventsNameThreads(m: Mem, th: Local, t: nat)
    requires SlotsInv(m) && th.Busy? && ThreadInv(m, th, t)
    ensures var es := Step(m, th, t).2; forall i :: 0 <= i < |es| ==> es[i].t < |m.phase|
  {
    if th.pc.FeedCas? { assert PopSlotOk(m, Index(m, th)); }
    if th.pc.TakeCas? { assert PushSlotOk(m, Index(m, th)); }
  }

  lemma ContinueKeeps(s: State, t: nat)
    requires Inv(s) && t < |s.threads| && s.threads[t].Busy?
    ensures Inv(Apply(s, Continue(t)))
  {
    var th := s.threads[t];
    var (m1, th', es) := Step(s.mem, th, t);
    StepRefinesStack(s.mem, th, t);
    EventsNameThreads(s.mem, th, t);
    PhaseUntouched(s.mem, th, t);
    MovedOn(s, t, m1, th', es);
  }

  lemma PhaseUntouched(m: Mem, th: Local, t: nat)
    requires th.Busy?
    ensures Step(m, th, t).0.phase == m.phase
  {
    if th.pc.FeedCas? || th.pc.OfferCas? || th.pc.Withdraw? || th.pc.ClearPush? { OfferLeavesPhase(m, th, t); }
    else if th.pc.TakeCas? || th.pc.TombCas? || th.pc.TombWithdraw? || th.pc.ClearPop? { TakeLeavesPhase(m, th, t); }
  }

  lemma OfferLeavesPhase(m: Mem, th: Local, t: nat)
    requires th.Busy? && (th.pc.FeedCas? || th.pc.OfferCas? || th.pc.Withdraw? || th.pc.ClearPush?)
    ensures Step(m, th, t).0.phase == m.phase
  {
  }

  lemma TakeLeavesPhase(m: Mem, th: Local, t: nat)
    requires th.Busy? && (th.pc.TakeCas? || th.pc.TombCas? || th.pc.TombWithdraw? || th.pc.ClearPop?)
    ensures Step(m, th, t).0.phase == m.phase
  {
  }

  lemma MovedOn(s: State, t: nat, m1: Mem, th': Local, es: seq<Event<Op, Ret>>)
    requires Inv(s) && t < |s.threads| && m1.phase == s.mem.phase
    requires MemInv(After(m1, es)) && Rely(s.mem, After(m1, es), t) && ThreadInv(After(m1, es), th', t)
    requires Runs(Contents(s.mem), es, Contents(m1)) && forall i :: 0 <= i < |es| ==> es[i].t < |s.mem.phase|
    ensures Inv(State(After(m1, es), s.threads[t := th'], s.trace + es))
  {
    ThreadsKept(s.mem, After(m1, es), s.threads, t, th');
    AppendEvents([], s.trace, Contents(s.mem), es, Contents(m1), s.mem.phase, s.trace + es);
  }

  lemma InvokeKeeps(s: State, t: nat, op: Op)
    requires Inv(s) && t < |s.threads| && s.threads[t].Idle?
    ensures Inv(Apply(s, Invoke(t, op)))
  {
    var (m1, th') := Enter(s.mem, op, t);
    var es := [Call(t, op)];
    assert ThreadInv(s.mem, s.threads[t], t);
    EnterKeeps(s.mem, op, t);
    ThreadsKept(s.mem, m1, s.threads, t, Idle);
    ThreadsKept(m1, After(m1, es), s.threads[t := Idle], t, th');
    assert s.threads[t := Idle][t := th'] == s.threads[t := th'];
    OneRun(Contents(s.mem), es[0], Contents(m1));
    AppendEvents([], s.trace, Contents(s.mem), es, Contents(m1), s.mem.phase, s.trace + es);
  }

  lemma ApplyKeeps(s: State, act: Action)
    requires Inv(s)
    ensures Inv(Apply(s, act))
  {
    if act.t < |s.threads| {
      if act.Invoke? && s.threads[act.t].Idle? { InvokeKeeps(s, act.t, act.op); }
      if act.Continue? && s.threads[act.t].Busy? { ContinueKeeps(s, act.t); }
    }
  }

  lemma InitKeeps(n: nat, k: nat)
    requires k > 0
    ensures Inv(Init(n, k))
  {
    var m := Init(n, k).mem;
    forall i | 0 <= i < k ensures PushSlotOk(m, i) && PopSlotOk(m, i) {}
    assert Contents(m) == [];
  }

  lemma {:induction false} RunKeeps(n: nat, k: nat, sched: seq<Action>)
    requires k > 0
    ensures Inv(Exec(Init(n, k), sched))
  {
    if sched == [] {
      InitKeeps(n, k);
    } else {
      RunKeeps(n, k, sched[..|sched| - 1]);
      ApplyKeeps(Exec(Init(n, k), sched[..|sched| - 1]), sched[|sched| - 1]);
    }
  }
}
