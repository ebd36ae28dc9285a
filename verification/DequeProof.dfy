/**
 What every interleaving of the deque keeps, and what a client sees.

 The argument is rely/guarantee: `MemInv` is what shared memory keeps, `ThreadInv` what one thread may
 count on at its program counter, and `Rely` what any step of another thread may do to memory.
 */
module DequeProof {
  import opened Linearizability
  import opened DequeSpecs
  import opened Sequences
  import opened Deque

  // ---------------------------------------------------------------- vocabulary

  /** x has been pushed at some time. */
  predicate Published(m: Mem, x: Ptr) { Stamp(m, x) > 0 }

  /** x has been pushed and popped again. */
  predicate Gone(m: Mem, x: Ptr) { Published(m, x) && x !in m.q }

  /** The push of x has been stabilised: x is not the end named by an unstable status. */
  predicate Settled(m: Mem, x: Ptr) {
    Published(m, x) && (m.anchor.st.Stable? || x != End(m.anchor, PushSide(m.anchor.st)))
  }

  ghost predicate InfixAt(s: seq<Ptr>, q: seq<Ptr>, i: nat) {
    i + |s| <= |q| && forall k :: 0 <= k < |s| ==> s[k] == q[i + k]
  }

  ghost predicate Infix(s: seq<Ptr>, q: seq<Ptr>) {
    exists i: nat :: InfixAt(s, q, i)
  }

  /** The neighbour of the node at end d. */
  function Inner(q: seq<Ptr>, d: Side): Ptr
    requires |q| >= 2
  {
    if d.Left? then q[1] else q[|q| - 2]
  }

  // ---------------------------------------------------------------- memory

  ghost predicate Sized(m: Mem) {
    |m.left| == |m.right| == |m.data| == |m.stamp| > 0
  }

  /** The anchor names the two ends of q; one element or none is always stable. */
  ghost predicate AnchorOk(a: Anchor, q: seq<Ptr>) {
    && (q == [] ==> a == Anchor(NULL, NULL, Stable))
    && (q != [] ==> a.l == q[0] && a.r == q[|q| - 1])
    && (|q| < 2 ==> a.st.Stable?)
  }

  /** Neighbours in q point to each other, except that the link towards an end named by an unstable
      status may still lag. */
  ghost predicate Coherent(m: Mem) {
    forall i :: 0 <= i < |m.q| - 1 ==>
      && ((m.anchor.st.RPush? && i == |m.q| - 2) || At(m.right, m.q[i]) == m.q[i + 1])
      && ((m.anchor.st.LPush? && i == 0) || At(m.left, m.q[i + 1]) == m.q[i])
  }

  /** Links never point to a node that has not been pushed. */
  ghost predicate LinksPublished(m: Mem) {
    && (forall x :: 0 <= x < |m.left| ==> m.left[x] == NULL || Published(m, m.left[x]))
    && (forall x :: 0 <= x < |m.right| ==> m.right[x] == NULL || Published(m, m.right[x]))
  }

  /** An unstable end is the node pushed last. */
  ghost predicate ClockOk(m: Mem) {
    && (forall x :: 0 <= x < |m.stamp| ==> m.stamp[x] <= m.clock)
    && (!m.anchor.st.Stable? ==>
          var e := End(m.anchor, PushSide(m.anchor.st));
          e < |m.stamp| && m.stamp[e] == m.clock && forall x :: 0 <= x < |m.stamp| && x != e ==> m.stamp[x] < m.clock)
  }

  ghost predicate MemInv(m: Mem) {
    && Sized(m) && m.stamp[NULL] == 0
    && Distinct(m.q) && (forall x :: x in m.q ==> Published(m, x))
    && AnchorOk(m.anchor, m.q)
    && Coherent(m)
    && LinksPublished(m)
    && ClockOk(m)
  }

  // ---------------------------------------------------------------- threads

  /** Thread th holds a fresh node that nobody else can reach. */
  predicate Owns(th: Local) {
    th.Busy? && th.op.Push? && !th.pushed && !th.pc.RetPush?
  }

  /** What remains true of a copy a of the anchor and the value s that q had then.  Nodes pushed and
      popped since then are at the ends only, so while both ends of s are in the deque, so is all of s. */
  ghost predicate SnapNodes(m: Mem, a: Anchor, s: seq<Ptr>) {
    && s != [] && AnchorOk(a, s) && Distinct(s) && (forall x :: x in s ==> Published(m, x))
    && (Gone(m, a.l) || Gone(m, a.r) || Infix(s, m.q))
  }

  /** An unstable status, once left, never comes back. */
  ghost predicate SnapStatus(m: Mem, a: Anchor, s: seq<Ptr>) {
    var d := PushSide(a.st);
    if a.st.Stable? then forall x :: x in s ==> Settled(m, x)
    else
      && (Settled(m, End(a, d)) || (m.anchor == a && m.q == s))
      && Published(m, Inward(m, d, End(a, d)))
  }

  ghost predicate SnapOk(m: Mem, a: Anchor, s: seq<Ptr>) {
    SnapNodes(m, a, s) && SnapStatus(m, a, s)
  }

  ghost predicate Stabilising(m: Mem, th: Local)
    requires th.Busy?
  {
    SnapOk(m, th.a, th.snap) && !th.a.st.Stable?
  }

  /** prev is the neighbour of the pushed end for as long as that end is not stabilised. */
  ghost predicate PrevOk(m: Mem, th: Local)
    requires th.Busy?
  {
    Stabilising(m, th) && Published(m, th.prev) &&
    (Settled(m, End(th.a, PushSide(th.a.st))) || th.prev == Inner(th.snap, PushSide(th.a.st)))
  }

  /** nbr was what prev linked to before the pushed end was. */
  ghost predicate NbrRead(m: Mem, th: Local)
    requires th.Busy?
  {
    var x := End(th.a, PushSide(th.a.st));
    && PrevOk(m, th) && th.nbr != x && (th.nbr == NULL || Published(m, th.nbr))
    && (Settled(m, x) || Stamp(m, th.nbr) < Stamp(m, x))
  }

  /** Once the pushed end is settled, prev links to it or to a later node, so never to nbr again:
      a helper that stalls here cannot undo anything. */
  ghost predicate FixReady(m: Mem, th: Local)
    requires th.Busy?
  {
    var e := PushSide(th.a.st);
    var x := End(th.a, e);
    && PrevOk(m, th) && (th.nbr == NULL || Published(m, th.nbr)) && Stamp(m, th.nbr) < Stamp(m, x)
    && th.prev == Inner(th.snap, e)
    && (Settled(m, x) ==> Stamp(m, Outward(m, e, th.prev)) >= Stamp(m, x))
  }

  ghost predicate LinkFixed(m: Mem, th: Local)
    requires th.Busy?
  {
    var e := PushSide(th.a.st);
    PrevOk(m, th) && (Settled(m, End(th.a, e)) || Outward(m, e, th.prev) == End(th.a, e))
  }

  ghost predicate ThreadInv(m: Mem, th: Local) {
    th.Busy? ==>
      var a, d := th.a, th.op.d;
      var e := PushSide(a.st);
      && (Owns(th) ==> 0 < th.node < |m.data| && !Published(m, th.node) && m.data[th.node] == th.op.v)
      && (th.pushed ==> th.op.Push?)
      && match th.pc
         case Snap => !th.pushed
         case CasEmpty => Owns(th) && a == Anchor(NULL, NULL, Stable)
         case Link => Owns(th) && a.st.Stable? && Published(m, a.l) && Published(m, a.r)
         case CasPush => Owns(th) && a.st.Stable? && Published(m, a.l) && Published(m, a.r) && Inward(m, d, th.node) == End(a, d)
         case ChkOne => th.op.Pop? && SnapOk(m, a, th.snap) && |th.snap| == 1
         case CasOne => th.op.Pop? && SnapOk(m, a, th.snap) && |th.snap| == 1
         case ChkL => th.op.Pop? && SnapOk(m, a, th.snap) && |th.snap| >= 2 && a.st.Stable?
         case ChkR => th.op.Pop? && SnapOk(m, a, th.snap) && |th.snap| >= 2 && a.st.Stable?
         case ChkA => th.op.Pop? && SnapOk(m, a, th.snap) && |th.snap| >= 2 && a.st.Stable?
         case ReadPrev =>
           th.op.Pop? && SnapOk(m, a, th.snap) && |th.snap| >= 2 && a.st.Stable? && Published(m, Inward(m, d, End(a, d)))
         case ChkAgain => PopPrev(m, th)
         case CasPop => PopPrev(m, th)
         case StL => Stabilising(m, th)
         case StR => Stabilising(m, th)
         case StA => Stabilising(m, th)
         case StPrev => Stabilising(m, th)
         case StEnd => PrevOk(m, th)
         case StA2 => PrevOk(m, th)
         case StNbr => PrevOk(m, th)
         case StA3 => NbrRead(m, th)
         case StFix => FixReady(m, th)
         case StDone => LinkFixed(m, th)
         case RetPush => th.op.Push?
         case RetEmpty => th.op.Pop?
         case RetPop => th.op.Pop? && Published(m, End(a, d))
         case Crash => false
  }

  ghost predicate PopPrev(m: Mem, th: Local)
    requires th.Busy?
  {
    && th.op.Pop? && SnapOk(m, th.a, th.snap) && |th.snap| >= 2 && th.a.st.Stable? && Published(m, th.prev)
    && (Gone(m, th.a.l) || Gone(m, th.a.r) || th.prev == Inner(th.snap, th.op.d))
  }

  /** The fresh node of th, or NULL. */
  function OwnNode(th: Local): Ptr {
    if Owns(th) then th.node else NULL
  }

  // ---------------------------------------------------------------- what other threads may do

  ghost predicate EndsMoved(q: seq<Ptr>, q': seq<Ptr>, own: Ptr) {
    q' == q || q' == q + [own] || q' == [own] + q || q' == PopEnd(q, Left) || q' == PopEnd(q, Right)
  }

  /** Data and push order of what exists already are kept. */
  ghost predicate NodesKept(m: Mem, m': Mem, own: Ptr)
    requires Sized(m) && Sized(m')
  {
    && |m.data| <= |m'.data|
    && (forall x :: 0 <= x < |m.data| ==> m'.data[x] == m.data[x])
    && (forall x :: 0 <= x < |m.data| && (x != own || Published(m, x)) ==> m'.stamp[x] == m.stamp[x])
  }

  /** Only its owner touches a fresh node, and a link of a published node only moves to nodes pushed
      later. */
  ghost predicate LinksForward(m: Mem, m': Mem, own: Ptr)
    requires Sized(m) && Sized(m') && |m.data| <= |m'.data|
  {
    forall x :: 0 <= x < |m.data| ==>
      if Published(m, x) then
        Stamp(m', m'.left[x]) >= Stamp(m, m.left[x]) && Stamp(m', m'.right[x]) >= Stamp(m, m.right[x])
      else x == own || (m'.left[x] == m.left[x] && m'.right[x] == m.right[x])
  }

  ghost predicate SettledKept(m: Mem, m': Mem) {
    forall x :: 0 <= x < |m.stamp| && Settled(m, x) ==> Settled(m', x)
  }

  /** While an end stays unstable nothing moves but the one lagging link, and it is settled only
      once that link is right. */
  ghost predicate LagOnly(m: Mem, m': Mem) {
    !m.anchor.st.Stable? && |m.q| >= 2 ==>
      var e := PushSide(m.anchor.st); var x, y := End(m.anchor, e), Inner(m.q, e);
      (Settled(m', x) && Outward(m', e, y) == x) ||
      (m'.anchor == m.anchor && m'.q == m.q && (Outward(m', e, y) == Outward(m, e, y) || Outward(m', e, y) == x))
  }

  /** A step of a thread whose fresh node is own may take m to m'. */
  ghost predicate Rely(m: Mem, m': Mem, own: Ptr) {
    && Sized(m) && Sized(m') && m'.stamp[NULL] == 0
    && NodesKept(m, m', own)
    && LinksForward(m, m', own)
    && EndsMoved(m.q, m'.q, own)
    && ((m'.q == m.q + [own] || m'.q == [own] + m.q) ==> !Published(m, own))
    && SettledKept(m, m')
    && LagOnly(m, m')
  }

  lemma InfixMoves(s: seq<Ptr>, q: seq<Ptr>, q': seq<Ptr>, own: Ptr)
    requires s != [] && Infix(s, q) && EndsMoved(q, q', own) && Distinct(q)
    ensures Infix(s, q') || s[0] !in q' || s[|s| - 1] !in q'
  {
    var i: nat :| InfixAt(s, q, i);
    if q' == q || q' == q + [own] {
      assert InfixAt(s, q', i);
    } else if q' == [own] + q {
      assert InfixAt(s, q', i + 1);
    } else if q' == PopEnd(q, Left) {
      if i > 0 { assert InfixAt(s, q', i - 1); }
      else { assert s[0] == q[0]; }
    } else {
      if i + |s| < |q| { assert InfixAt(s, q', i); }
      else { assert s[|s| - 1] == q[|q| - 1]; }
    }
  }

  lemma InfixStable(m: Mem, m': Mem, own: Ptr, s: seq<Ptr>)
    requires Sized(m) && Sized(m') && Distinct(m.q) && NodesKept(m, m', own) && EndsMoved(m.q, m'.q, own)
    requires s != [] && Infix(s, m.q) && Published(m, s[0]) && Published(m, s[|s| - 1])
    ensures Gone(m', s[0]) || Gone(m', s[|s| - 1]) || Infix(s, m'.q)
  {
    InfixMoves(s, m.q, m'.q, own);
  }

  lemma GoneStable(m: Mem, m': Mem, own: Ptr, x: Ptr)
    requires Rely(m, m', own) && Gone(m, x)
    ensures Gone(m', x)
  {
  }

  lemma StampStable(m: Mem, m': Mem, own: Ptr, x: Ptr)
    requires Rely(m, m', own) && Published(m, x)
    ensures Published(m', x) && Stamp(m', x) == Stamp(m, x)
    ensures forall d :: Stamp(m', Inward(m', d, x)) >= Stamp(m, Inward(m, d, x))
    ensures forall d :: Stamp(m', Outward(m', d, x)) >= Stamp(m, Outward(m, d, x))
    ensures Settled(m, x) ==> Settled(m', x)
  {
  }

  lemma SnapNodesStable(m: Mem, m': Mem, own: Ptr, a: Anchor, s: seq<Ptr>)
    requires Distinct(m.q) && Rely(m, m', own) && SnapNodes(m, a, s)
    ensures SnapNodes(m', a, s)
    ensures Gone(m, a.l) ==> Gone(m', a.l)
    ensures Gone(m, a.r) ==> Gone(m', a.r)
  {
    assert a.l in s && a.r in s;
    if Gone(m, a.l) { GoneStable(m, m', own, a.l); }
    if Gone(m, a.r) { GoneStable(m, m', own, a.r); }
    if Infix(s, m.q) { InfixStable(m, m', own, s); }
  }

  lemma SnapStatusStable(m: Mem, m': Mem, own: Ptr, a: Anchor, s: seq<Ptr>)
    requires Rely(m, m', own) && AnchorOk(a, s) && SnapStatus(m, a, s)
    requires forall x :: x in s ==> Published(m, x)
    ensures SnapStatus(m', a, s)
  {
    if !a.st.Stable? {
      assert End(a, PushSide(a.st)) in s;
      StampStable(m, m', own, End(a, PushSide(a.st)));
    }
  }

  lemma SnapStable(m: Mem, m': Mem, own: Ptr, a: Anchor, s: seq<Ptr>)
    requires MemInv(m) && Rely(m, m', own) && SnapOk(m, a, s)
    ensures SnapOk(m', a, s)
    ensures Gone(m, a.l) ==> Gone(m', a.l)
    ensures Gone(m, a.r) ==> Gone(m', a.r)
  {
    SnapNodesStable(m, m', own, a, s);
    SnapStatusStable(m, m', own, a, s);
  }

  lemma OwnNodeStable(m: Mem, m': Mem, own: Ptr, x: Ptr)
    requires Rely(m, m', own) && 0 < x < |m.data| && !Published(m, x) && x != own
    ensures x < |m'.data| && !Published(m', x) && m'.data[x] == m.data[x]
    ensures forall d :: Inward(m', d, x) == Inward(m, d, x)
  {
  }

  lemma PopStable(m: Mem, m': Mem, own: Ptr, th: Local)
    requires MemInv(m) && Rely(m, m', own) && th.Busy? && PopPrev(m, th)
    ensures PopPrev(m', th)
  {
    SnapStable(m, m', own, th.a, th.snap);
    StampStable(m, m', own, th.prev);
  }

  lemma StabilisingStable(m: Mem, m': Mem, own: Ptr, th: Local)
    requires MemInv(m) && Rely(m, m', own) && th.Busy? && Stabilising(m, th)
    ensures Stabilising(m', th)
    ensures PrevOk(m, th) ==> PrevOk(m', th)
    ensures var e := PushSide(th.a.st); var x := End(th.a, e);
      && Stamp(m', x) == Stamp(m, x) > 0
      && (Settled(m', x) || (!Settled(m, x) && m'.anchor == m.anchor == th.a && m'.q == m.q == th.snap))
  {
    SnapStable(m, m', own, th.a, th.snap);
    var x := End(th.a, PushSide(th.a.st));
    assert x in th.snap;
    StampStable(m, m', own, x);
    if PrevOk(m, th) { StampStable(m, m', own, th.prev); }
  }

  lemma NbrReadStable(m: Mem, m': Mem, own: Ptr, th: Local)
    requires MemInv(m) && Rely(m, m', own) && th.Busy? && NbrRead(m, th)
    ensures NbrRead(m', th)
  {
    StabilisingStable(m, m', own, th);
    if th.nbr != NULL { StampStable(m, m', own, th.nbr); }
  }

  lemma FixReadyStable(m: Mem, m': Mem, own: Ptr, th: Local)
    requires MemInv(m) && Rely(m, m', own) && th.Busy? && FixReady(m, th)
    ensures FixReady(m', th)
  {
    StabilisingStable(m, m', own, th);
    StampStable(m, m', own, th.prev);
    if th.nbr != NULL { StampStable(m, m', own, th.nbr); }
  }

  lemma LinkFixedStable(m: Mem, m': Mem, own: Ptr, th: Local)
    requires MemInv(m) && Rely(m, m', own) && th.Busy? && LinkFixed(m, th)
    ensures LinkFixed(m', th)
  {
    StabilisingStable(m, m', own, th);
  }

  /** Nothing another thread does breaks what a thread counts on. */
  lemma ThreadStable(m: Mem, m': Mem, own: Ptr, th: Local)
    requires MemInv(m) && Rely(m, m', own) && ThreadInv(m, th)
    requires Owns(th) ==> th.node != own
    ensures ThreadInv(m', th)
  {
    if th.Busy? {
      if Owns(th) { OwnNodeStable(m, m', own, th.node); }
      match th.pc {
        case Link =>
          StampStable(m, m', own, th.a.l);
          StampStable(m, m', own, th.a.r);
        case CasPush =>
          StampStable(m, m', own, th.a.l);
          StampStable(m, m', own, th.a.r);
        case ChkOne => SnapStable(m, m', own, th.a, th.snap);
        case CasOne => SnapStable(m, m', own, th.a, th.snap);
        case ChkL => SnapStable(m, m', own, th.a, th.snap);
        case ChkR => SnapStable(m, m', own, th.a, th.snap);
        case ChkA => SnapStable(m, m', own, th.a, th.snap);
        case ReadPrev =>
          SnapStable(m, m', own, th.a, th.snap);
          StampStable(m, m', own, End(th.a, th.op.d));
        case ChkAgain => PopStable(m, m', own, th);
        case CasPop => PopStable(m, m', own, th);
        case StL => StabilisingStable(m, m', own, th);
        case StR => StabilisingStable(m, m', own, th);
        case StA => StabilisingStable(m, m', own, th);
        case StPrev => StabilisingStable(m, m', own, th);
        case StEnd => StabilisingStable(m, m', own, th);
        case StA2 => StabilisingStable(m, m', own, th);
        case StNbr => StabilisingStable(m, m', own, th);
        case StA3 => NbrReadStable(m, m', own, th);
        case StFix => FixReadyStable(m, m', own, th);
        case StDone => LinkFixedStable(m, m', own, th);
        case RetPop => StampStable(m, m', own, End(th.a, th.op.d));
        case _ =>
      }
    }
  }

  // ---------------------------------------------------------------- what each step does to memory

  lemma NothingKeeps(m: Mem, own: Ptr)
    requires MemInv(m)
    ensures Rely(m, m, own)
  {
  }

  lemma FreshNodeKeepsMem(m: Mem, v: int)
    requires MemInv(m)
    ensures MemInv(Enter(m, Push(Left, v)).0)
  {
    var m' := Enter(m, Push(Left, v)).0;
    assert forall x {:trigger Published(m', x)} :: Published(m', x) <==> Published(m, x);
    assert LinksPublished(m');
    assert Coherent(m');
    if !m.anchor.st.Stable? { assert End(m.anchor, PushSide(m.anchor.st)) in m.q; }
    assert ClockOk(m');
  }

  lemma FreshNodeRely(m: Mem, v: int)
    requires MemInv(m)
    ensures Rely(m, Enter(m, Push(Left, v)).0, |m.data|)
  {
    var m' := Enter(m, Push(Left, v)).0;
    assert forall x :: Stamp(m', x) == Stamp(m, x);
    assert NodesKept(m, m', |m.data|);
    assert LinksForward(m, m', |m.data|);
    assert SettledKept(m, m');
    assert LagOnly(m, m');
  }

  lemma LinkKeepsMem(m: Mem, d: Side, x: Ptr, y: Ptr)
    requires MemInv(m) && 0 < x < |m.data| && !Published(m, x) && Published(m, y)
    ensures MemInv(SetInward(m, d, x, y))
  {
    var m' := SetInward(m, d, x, y);
    assert forall p {:trigger Published(m', p)} :: Published(m', p) <==> Published(m, p);
    assert LinksPublished(m');
    assert Coherent(m');
  }

  lemma LinkRely(m: Mem, d: Side, x: Ptr, y: Ptr)
    requires MemInv(m) && 0 < x < |m.data| && !Published(m, x)
    ensures Rely(m, SetInward(m, d, x, y), x)
  {
    var m' := SetInward(m, d, x, y);
    assert forall p :: Stamp(m', p) == Stamp(m, p);
    assert LinksForward(m, m', x);
    assert SettledKept(m, m');
    if |m.q| >= 2 {
      assert Inner(m.q, PushSide(m.anchor.st)) in m.q;
      assert LagOnly(m, m');
    }
  }

  predicate MayPublish(m: Mem, d: Side, x: Ptr, a: Anchor) {
    && 0 < x < |m.data| && !Published(m, x) && m.anchor.st.Stable?
    && if m.q == [] then a == Anchor(x, x, Stable)
       else a == SetEnd(m.anchor, d, x).(st := PushStatus(d)) && Inward(m, d, x) == End(m.anchor, d)
  }

  lemma PublishCoherent(m: Mem, d: Side, x: Ptr, a: Anchor)
    requires MemInv(m) && MayPublish(m, d, x, a)
    ensures var m' := Publish(m, d, x, a); Coherent(m') && AnchorOk(m'.anchor, m'.q) && Distinct(m'.q)
  {
    var m' := Publish(m, d, x, a);
    assert x !in m.q;
    if d.Left? {
      assert forall i :: 0 < i < |m'.q| ==> m'.q[i] == m.q[i - 1];
    }
  }

  lemma PublishKeepsMem(m: Mem, d: Side, x: Ptr, a: Anchor)
    requires MemInv(m) && MayPublish(m, d, x, a)
    ensures var m' := Publish(m, d, x, a); MemInv(m') && Published(m', x)
  {
    var m' := Publish(m, d, x, a);
    assert forall y :: y in m'.q ==> y == x || y in m.q;
    assert forall p {:trigger Published(m', p)} :: Published(m', p) <==> Published(m, p) || p == x;
    PublishCoherent(m, d, x, a);
  }

  lemma PublishRely(m: Mem, d: Side, x: Ptr, a: Anchor)
    requires MemInv(m) && MayPublish(m, d, x, a)
    ensures Rely(m, Publish(m, d, x, a), x)
  {
    var m' := Publish(m, d, x, a);
    assert forall p :: p != x ==> Stamp(m', p) == Stamp(m, p);
    assert NodesKept(m, m', x);
    assert LinksForward(m, m', x);
    assert SettledKept(m, m');
  }

  lemma PopKeeps(m: Mem, d: Side, a: Anchor, own: Ptr)
    requires MemInv(m) && m.q != [] && m.anchor.st.Stable?
    requires a == if |m.q| == 1 then Anchor(NULL, NULL, Stable) else SetEnd(m.anchor, d, Inner(m.q, d))
    ensures var m' := m.(anchor := a, q := PopEnd(m.q, d)); MemInv(m') && Rely(m, m', own)
  {
    var m' := m.(anchor := a, q := PopEnd(m.q, d));
    assert forall x :: x in m'.q ==> x in m.q;
    assert Coherent(m');
    assert SettledKept(m, m');
  }

  lemma FixCoherent(m: Mem)
    requires Sized(m) && Distinct(m.q) && AnchorOk(m.anchor, m.q) && Coherent(m) && !m.anchor.st.Stable?
    requires forall x :: x in m.q ==> x < |m.left|
    ensures var e := PushSide(m.anchor.st); Coherent(SetOutward(m, e, Inner(m.q, e), End(m.anchor, e)))
  {
    var e := PushSide(m.anchor.st);
    assert End(m.anchor, e) in m.q && Inner(m.q, e) in m.q;
  }

  lemma FixKeepsMem(m: Mem)
    requires MemInv(m) && !m.anchor.st.Stable?
    ensures var e := PushSide(m.anchor.st); var x := End(m.anchor, e);
      var m' := SetOutward(m, e, Inner(m.q, e), x); MemInv(m') && Outward(m', e, Inner(m.q, e)) == x
  {
    var e := PushSide(m.anchor.st);
    var x, y := End(m.anchor, e), Inner(m.q, e);
    var m' := SetOutward(m, e, y, x);
    assert x in m.q && y in m.q;
    assert forall p {:trigger Published(m', p)} :: Published(m', p) <==> Published(m, p);
    FixCoherent(m);
    assert LinksPublished(m');
  }

  lemma FixRely(m: Mem, own: Ptr)
    requires MemInv(m) && !m.anchor.st.Stable?
    requires var e := PushSide(m.anchor.st); Stamp(m, Outward(m, e, Inner(m.q, e))) < Stamp(m, End(m.anchor, e))
    ensures var e := PushSide(m.anchor.st); Rely(m, SetOutward(m, e, Inner(m.q, e), End(m.anchor, e)), own)
  {
    var e := PushSide(m.anchor.st);
    var x, y := End(m.anchor, e), Inner(m.q, e);
    var m' := SetOutward(m, e, y, x);
    assert x in m.q && y in m.q;
    assert forall p :: Stamp(m', p) == Stamp(m, p);
    assert LinksForward(m, m', own);
    assert SettledKept(m, m');
    assert LagOnly(m, m');
  }

  lemma StableKeeps(m: Mem, own: Ptr)
    requires MemInv(m) && !m.anchor.st.Stable?
    requires var e := PushSide(m.anchor.st); Outward(m, e, Inner(m.q, e)) == End(m.anchor, e)
    ensures var m' := m.(anchor := m.anchor.(st := Stable)); MemInv(m') && Rely(m, m', own)
  {
    var m' := m.(anchor := m.anchor.(st := Stable));
    assert forall p {:trigger Published(m', p)} :: Published(m', p) <==> Published(m, p);
    assert Coherent(m');
    assert End(m.anchor, PushSide(m.anchor.st)) in m.q;
  }

  // ---------------------------------------------------------------- a step keeps everything

  /** If the anchor has the value that was copied, the deque holds the very nodes it held then, even
      if it changed in between. */
  lemma SameAnchorSameNodes(m: Mem, a: Anchor, s: seq<Ptr>)
    requires MemInv(m) && SnapOk(m, a, s) && m.anchor == a
    ensures m.q == s
  {
    assert m.q != [];
    var i: nat :| InfixAt(s, m.q, i);
    assert i == 0;
    assert s[|s| - 1] == m.q[|s| - 1];
  }

  ghost predicate StepKept(m: Mem, th: Local, t: nat)
    requires th.Busy?
  {
    var (m', th', _) := Step(m, th, t);
    MemInv(m') && Rely(m, m', OwnNode(th)) && ThreadInv(m', th') && (Owns(th') ==> Owns(th) && th'.node == th.node)
  }

  /** The same for an instruction that only reads. */
  ghost predicate ReadKept(m: Mem, th: Local, t: nat)
    requires th.Busy?
  {
    var (m', th', _) := Step(m, th, t);
    m' == m && ThreadInv(m, th') && (Owns(th') ==> Owns(th) && th'.node == th.node)
  }

  lemma ReadIsKept(m: Mem, th: Local, t: nat)
    requires MemInv(m) && th.Busy? && ReadKept(m, th, t)
    ensures StepKept(m, th, t)
  {
    NothingKeeps(m, OwnNode(th));
  }

  lemma SnapNow(m: Mem)
    requires MemInv(m) && m.q != []
    ensures SnapOk(m, m.anchor, m.q)
  {
    assert InfixAt(m.q, m.q, 0);
    assert m.anchor.l in m.q && m.anchor.r in m.q;
    if !m.anchor.st.Stable? {
      var e := PushSide(m.anchor.st);
      assert Inward(m, e, End(m.anchor, e)) == Inner(m.q, e);
      assert Inner(m.q, e) in m.q;
    }
  }

  lemma SnapKeeps(m: Mem, th: Local, t: nat)
    requires MemInv(m) && ThreadInv(m, th) && th.Busy? && th.pc.Snap?
    ensures StepKept(m, th, t)
  {
    if m.q != [] {
      SnapNow(m);
      EndsPublished(m);
    }
    SnapReads(m, th, t);
    ReadIsKept(m, th, t);
  }

  lemma EndsPublished(m: Mem)
    requires MemInv(m) && m.q != []
    ensures Published(m, m.anchor.l) && Published(m, m.anchor.r) && m.anchor.l != NULL && m.anchor.r != NULL
    ensures |m.q| >= 2 <==> m.anchor.l != m.anchor.r
  {
    assert m.anchor.l in m.q && m.anchor.r in m.q;
  }

  lemma SnapReads(m: Mem, th: Local, t: nat)
    requires ThreadInv(m, th) && th.Busy? && th.pc.Snap?
    requires m.q == [] ==> m.anchor == Anchor(NULL, NULL, Stable)
    requires m.q != [] ==>
      && SnapOk(m, m.anchor, m.q) && Published(m, m.anchor.l) && Published(m, m.anchor.r)
      && m.anchor.l != NULL && m.anchor.r != NULL
      && (|m.q| >= 2 <==> m.anchor.l != m.anchor.r)
    ensures ReadKept(m, th, t)
  {
  }

  lemma PushKeeps(m: Mem, th: Local, t: nat)
    requires MemInv(m) && ThreadInv(m, th) && th.Busy? && (th.pc.CasEmpty? || th.pc.CasPush?)
    ensures StepKept(m, th, t)
  {
    var d, x := th.op.d, th.node;
    if m.anchor == th.a {
      var a := if th.pc.CasEmpty? then Anchor(x, x, Stable) else SetEnd(th.a, d, x).(st := PushStatus(d));
      assert m.q != [] ==> m.q[0] in m.q;
      PublishKeepsMem(m, d, x, a);
      PublishRely(m, d, x, a);
      SnapNow(Publish(m, d, x, a));
    } else {
      NothingKeeps(m, x);
    }
  }

  lemma LinkStepKeeps(m: Mem, th: Local, t: nat)
    requires MemInv(m) && ThreadInv(m, th) && th.Busy? && th.pc.Link?
    ensures StepKept(m, th, t)
  {
    LinkKeepsMem(m, th.op.d, th.node, End(th.a, th.op.d));
    LinkRely(m, th.op.d, th.node, End(th.a, th.op.d));
  }

  lemma PopChecksKeep(m: Mem, th: Local, t: nat)
    requires ThreadInv(m, th) && th.Busy? && (th.pc.ChkOne? || th.pc.ChkL? || th.pc.ChkR? || th.pc.ChkAgain?)
    requires Stamp(m, NULL) == 0
    ensures ReadKept(m, th, t)
  {
  }

  lemma ChkAKeeps(m: Mem, th: Local, t: nat)
    requires ThreadInv(m, th) && th.Busy? && th.pc.ChkA?
    requires m.anchor == th.a ==> Published(m, Inward(m, th.op.d, End(th.a, th.op.d)))
    ensures ReadKept(m, th, t)
  {
  }

  lemma ReadPrevKeeps(m: Mem, th: Local, t: nat)
    requires MemInv(m) && ThreadInv(m, th) && th.Busy? && th.pc.ReadPrev?
    ensures ReadKept(m, th, t)
  {
    if !Gone(m, th.a.l) && !Gone(m, th.a.r) {
      PrevIsInner(m, th);
    }
  }

  /** At a stable anchor the end links to its neighbour. */
  lemma CoherentEnd(m: Mem, d: Side)
    requires MemInv(m) && |m.q| >= 2 && m.anchor.st.Stable?
    ensures Inward(m, d, End(m.anchor, d)) == Inner(m.q, d) && Published(m, Inner(m.q, d))
  {
    assert Inner(m.q, d) in m.q;
  }

  /** A popper that reads the neighbour of its end reads the right one, unless one of the two ends it
      saw has been popped in the meantime (and then its compare-and-swap must fail). */
  lemma PrevIsInner(m: Mem, th: Local)
    requires MemInv(m) && ThreadInv(m, th) && th.Busy? && th.pc.ReadPrev?
    requires !Gone(m, th.a.l) && !Gone(m, th.a.r)
    ensures Inward(m, th.op.d, End(th.a, th.op.d)) == Inner(th.snap, th.op.d)
  {
    var s, q := th.snap, m.q;
    var i: nat :| InfixAt(s, q, i);
    assert s[0] == q[i] && s[1] == q[i + 1];
    assert s[|s| - 2] == q[i + |s| - 2] && s[|s| - 1] == q[i + |s| - 1];
    if !m.anchor.st.Stable? {
      assert Settled(m, s[0]) && Settled(m, s[|s| - 1]);
    }
  }

  /** The anchor that a popper is about to install is the right one. */
  lemma PopAnchor(m: Mem, th: Local, t: nat)
    requires MemInv(m) && ThreadInv(m, th) && th.Busy? && (th.pc.CasOne? || th.pc.CasPop?) && m.anchor == th.a
    ensures m.q != [] && m.anchor.st.Stable? && Published(m, th.a.l) && Published(m, th.a.r) && th.op.Pop?
    ensures Step(m, th, t).0.anchor == if |m.q| == 1 then Anchor(NULL, NULL, Stable) else SetEnd(m.anchor, th.op.d, Inner(m.q, th.op.d))
  {
    SameAnchorSameNodes(m, th.a, th.snap);
    EndsPublished(m);
    assert m.anchor.l in m.q && m.anchor.r in m.q;
  }

  lemma CasPopKeeps(m: Mem, th: Local, t: nat)
    requires MemInv(m) && ThreadInv(m, th) && th.Busy? && (th.pc.CasOne? || th.pc.CasPop?) && m.anchor == th.a
    ensures StepKept(m, th, t)
  {
    PopAnchor(m, th, t);
    PopKeeps(m, th.op.d, Step(m, th, t).0.anchor, NULL);
    PoppedKeeps(m, th, t);
  }

  lemma PoppedKeeps(m: Mem, th: Local, t: nat)
    requires th.Busy? && (th.pc.CasOne? || th.pc.CasPop?) && m.anchor == th.a && th.op.Pop? && !th.pushed
    requires Published(m, th.a.l) && Published(m, th.a.r)
    ensures var (m', th', _) := Step(m, th, t); ThreadInv(m', th') && !Owns(th')
  {
  }

  lemma LostPopKeeps(m: Mem, th: Local, t: nat)
    requires ThreadInv(m, th) && th.Busy? && (th.pc.CasOne? || th.pc.CasPop?) && m.anchor != th.a
    ensures ReadKept(m, th, t)
  {
  }

  lemma StFirstChecksKeep(m: Mem, th: Local, t: nat)
    requires Stamp(m, NULL) == 0 && ThreadInv(m, th) && th.Busy? && (th.pc.StL? || th.pc.StR? || th.pc.StA?)
    ensures ReadKept(m, th, t)
  {
    assert th.a.l in th.snap && th.a.r in th.snap;
    assert th.a.l != NULL && th.a.r != NULL;
  }

  lemma StLaterChecksKeep(m: Mem, th: Local, t: nat)
    requires ThreadInv(m, th) && th.Busy? && (th.pc.StEnd? || th.pc.StA2?)
    ensures ReadKept(m, th, t)
  {
  }

  lemma PushedEndLinks(m: Mem)
    requires MemInv(m) && !m.anchor.st.Stable?
    ensures var e := PushSide(m.anchor.st); Inward(m, e, End(m.anchor, e)) == Inner(m.q, e)
  {
  }

  lemma StPrevKeeps(m: Mem, th: Local, t: nat)
    requires Stamp(m, NULL) == 0 && ThreadInv(m, th) && th.Busy? && th.pc.StPrev?
    requires !m.anchor.st.Stable? && |m.q| >= 2 ==>
      var e := PushSide(m.anchor.st); Inward(m, e, End(m.anchor, e)) == Inner(m.q, e)
    ensures ReadKept(m, th, t)
  {
  }

  lemma StNbrKeeps(m: Mem, th: Local, t: nat)
    requires MemInv(m) && ThreadInv(m, th) && th.Busy? && th.pc.StNbr?
    ensures ReadKept(m, th, t)
  {
    assert End(th.a, PushSide(th.a.st)) in th.snap;
  }

  lemma StA3Keeps(m: Mem, th: Local, t: nat)
    requires MemInv(m) && ThreadInv(m, th) && th.Busy? && th.pc.StA3?
    ensures ReadKept(m, th, t)
  {
    assert End(th.a, PushSide(th.a.st)) in th.snap;
  }

  lemma StFixKeeps(m: Mem, th: Local, t: nat)
    requires MemInv(m) && ThreadInv(m, th) && th.Busy? && th.pc.StFix?
    ensures StepKept(m, th, t)
  {
    var e := PushSide(th.a.st);
    if Outward(m, e, th.prev) == th.nbr {
      FixKeepsMem(m);
      FixRely(m, OwnNode(th));
      StabilisingStable(m, SetOutward(m, e, th.prev, End(th.a, e)), OwnNode(th), th);
    } else {
      NothingKeeps(m, OwnNode(th));
    }
  }

  /** A helper that stalls before its compare-and-swap on a neighbour link cannot land it late: if the
      swap succeeds, the anchor is still the unstable one it set out to stabilise. */
  lemma StalledHelperIsHarmless(m: Mem, th: Local)
    requires MemInv(m) && ThreadInv(m, th) && th.Busy? && th.pc.StFix?
    requires Outward(m, PushSide(th.a.st), th.prev) == th.nbr
    ensures m.anchor == th.a && m.q == th.snap && th.prev == Inner(m.q, PushSide(th.a.st))
  {
  }

  lemma StDoneKeeps(m: Mem, th: Local, t: nat)
    requires MemInv(m) && ThreadInv(m, th) && th.Busy? && th.pc.StDone?
    ensures StepKept(m, th, t)
  {
    if m.anchor == th.a {
      assert !Settled(m, End(th.a, PushSide(th.a.st)));
      StableKeeps(m, OwnNode(th));
    } else {
      NothingKeeps(m, OwnNode(th));
    }
  }

  lemma StabiliseKeeps(m: Mem, th: Local, t: nat)
    requires MemInv(m) && ThreadInv(m, th) && th.Busy?
    requires InStabilise(th.pc)
    ensures StepKept(m, th, t)
  {
    if th.pc.StFix? { StFixKeeps(m, th, t); }
    else if th.pc.StDone? { StDoneKeeps(m, th, t); }
    else {
      if th.pc.StPrev? {
        if !m.anchor.st.Stable? { PushedEndLinks(m); }
        StPrevKeeps(m, th, t);
      }
      else if th.pc.StNbr? { StNbrKeeps(m, th, t); }
      else if th.pc.StA3? { StA3Keeps(m, th, t); }
      else if th.pc.StEnd? || th.pc.StA2? { StLaterChecksKeep(m, th, t); }
      else { StFirstChecksKeep(m, th, t); }
      ReadIsKept(m, th, t);
    }
  }

  lemma PopStepKeeps(m: Mem, th: Local, t: nat)
    requires MemInv(m) && ThreadInv(m, th) && th.Busy?
    requires th.pc.ChkOne? || th.pc.CasOne? || th.pc.ChkL? || th.pc.ChkR? || th.pc.ChkA? || th.pc.ReadPrev? ||
             th.pc.ChkAgain? || th.pc.CasPop?
    ensures StepKept(m, th, t)
  {
    if (th.pc.CasOne? || th.pc.CasPop?) && m.anchor == th.a { CasPopKeeps(m, th, t); }
    else {
      if th.pc.CasOne? || th.pc.CasPop? { LostPopKeeps(m, th, t); }
      else if th.pc.ChkA? {
        if m.anchor == th.a {
          SameAnchorSameNodes(m, th.a, th.snap);
          CoherentEnd(m, th.op.d);
        }
        ChkAKeeps(m, th, t);
      }
      else if th.pc.ReadPrev? { ReadPrevKeeps(m, th, t); }
      else { PopChecksKeep(m, th, t); }
      ReadIsKept(m, th, t);
    }
  }

  lemma ReturnKeeps(m: Mem, th: Local, t: nat)
    requires MemInv(m) && ThreadInv(m, th) && th.Busy?
    requires th.pc.RetPush? || th.pc.RetEmpty? || th.pc.RetPop? || th.pc.Crash?
    ensures StepKept(m, th, t)
  {
    NothingKeeps(m, OwnNode(th));
  }

  /** Every instruction of every thread keeps the invariant of memory, leaves the other threads what
      they count on, and never fails an assertion of the source. */
  lemma StepKeeps(m: Mem, th: Local, t: nat)
    requires MemInv(m) && ThreadInv(m, th) && th.Busy?
    ensures StepKept(m, th, t)
  {
    if th.pc.Snap? { SnapKeeps(m, th, t); }
    else if th.pc.Link? { LinkStepKeeps(m, th, t); }
    else if th.pc.CasEmpty? || th.pc.CasPush? { PushKeeps(m, th, t); }
    else if th.pc.RetPush? || th.pc.RetEmpty? || th.pc.RetPop? || th.pc.Crash? { ReturnKeeps(m, th, t); }
    else if th.pc.ChkOne? || th.pc.CasOne? || th.pc.ChkL? || th.pc.ChkR? || th.pc.ChkA? || th.pc.ReadPrev? ||
            th.pc.ChkAgain? || th.pc.CasPop? { PopStepKeeps(m, th, t); }
    else { StabiliseKeeps(m, th, t); }
  }

  // ---------------------------------------------------------------- what a client sees

  /** The values in the deque, left to right. */
  function Contents(m: Mem): seq<int> {
    seq(|m.q|, i requires 0 <= i < |m.q| => Value(m, m.q[i]))
  }

  /** Where a thread's call stands, read off its locals. */
  function PhaseNow(m: Mem, th: Local): Phase<Op, Ret> {
    match th
    case Idle => Quiet
    case Busy(op, pc, _, a, _, _, _, pushed) =>
      if pushed || pc.RetPush? then Done(op, Pushed)
      else if pc.RetEmpty? then Done(op, Empty)
      else if pc.RetPop? then Done(op, Got(Value(m, End(a, op.d))))
      else Pending(op, {})
  }

  /** An instruction either changes nothing a client could see, or it is the one instruction at which
      its call takes effect, exactly as the sequential deque would; and it moves its call along. */
  ghost predicate StepRefines(m: Mem, th: Local, t: nat)
    requires th.Busy?
  {
    var (m', th', es) := Step(m, th, t);
    Explains(m, PhaseNow(m, th), t, es, m', PhaseNow(m', th'))
  }

  ghost predicate Explains(m: Mem, p: Phase<Op, Ret>, t: nat, es: seq<Event<Op, Ret>>, m': Mem, p': Phase<Op, Ret>) {
    if es == [] then Contents(m') == Contents(m) && p' == p
    else
      && |es| == 1 && es[0].t == t && !es[0].Observe? && Advance(p, es[0]) == p'
      && (if es[0].Commit? then DequeSpec(Contents(m), es[0].op) == (Contents(m'), es[0].ret)
          else Contents(m') == Contents(m))
  }

  lemma PublishAppends(m: Mem, d: Side, x: Ptr, a: Anchor)
    ensures DequeSpec(Contents(m), Push(d, Value(m, x))) == (Contents(Publish(m, d, x, a)), Pushed)
  {
    assert Contents(Publish(m, d, x, a))
        == if d.Left? then [Value(m, x)] + Contents(m) else Contents(m) + [Value(m, x)];
  }

  lemma PopRemoves(m: Mem, d: Side, a: Anchor)
    requires m.q != []
    ensures DequeSpec(Contents(m), Pop(d))
         == (Contents(m.(anchor := a, q := PopEnd(m.q, d))), Got(Value(m, if d.Left? then m.q[0] else m.q[|m.q| - 1])))
  {
    var c := Contents(m);
    assert Contents(m.(anchor := a, q := PopEnd(m.q, d))) == if d.Left? then c[1..] else c[..|c| - 1];
  }

  lemma StepRefinesDeque(m: Mem, th: Local, t: nat)
    requires MemInv(m) && ThreadInv(m, th) && th.Busy?
    ensures StepRefines(m, th, t)
  {
    var d := th.op.d;
    if th.pc.CasEmpty? && m.anchor == th.a {
      PublishAppends(m, d, th.node, Anchor(th.node, th.node, Stable));
    } else if th.pc.CasPush? && m.anchor == th.a {
      PublishAppends(m, d, th.node, SetEnd(th.a, d, th.node).(st := PushStatus(d)));
    } else if (th.pc.CasOne? || th.pc.CasPop?) && m.anchor == th.a {
      assert m.q != [];
      PopRemoves(m, d, Step(m, th, t).0.anchor);
    } else if th.pc.Snap? {
      SnapRefines(m, th, t);
    } else if InStabilise(th.pc) {
      StabiliseRefines(m, th, t);
    } else {
      QuietStep(m, th, t);
    }
  }

  lemma SnapRefines(m: Mem, th: Local, t: nat)
    requires MemInv(m) && ThreadInv(m, th) && th.Busy? && th.pc.Snap?
    ensures StepRefines(m, th, t)
  {
    if m.q != [] { EndsPublished(m); }
  }

  lemma QuietStep(m: Mem, th: Local, t: nat)
    requires th.Busy? && !th.pc.Snap? && !InStabilise(th.pc)
    requires (th.pushed ==> th.op.Push?) && (th.pc.RetEmpty? || th.pc.RetPop? ==> th.op.Pop?)
    requires th.pc.CasOne? || th.pc.CasPop? || th.pc.CasEmpty? || th.pc.CasPush? ==> m.anchor != th.a
    ensures StepRefines(m, th, t)
  {
    var m' := Step(m, th, t).0;
    assert m'.q == m.q && m'.data == m.data;
    assert Contents(m') == Contents(m);
  }

  predicate InStabilise(pc: PC) {
    pc.StL? || pc.StR? || pc.StA? || pc.StPrev? || pc.StEnd? || pc.StA2? || pc.StNbr? || pc.StA3? || pc.StFix? || pc.StDone?
  }

  /** Stabilising never changes what the deque contains. */
  lemma StabiliseRefines(m: Mem, th: Local, t: nat)
    requires th.Busy? && InStabilise(th.pc)
    ensures StepRefines(m, th, t) && Step(m, th, t).2 == []
  {
    var (m', th', es) := Step(m, th, t);
    assert m'.q == m.q && m'.data == m.data;
    assert Contents(m') == Contents(m);
    assert th'.Busy? && th'.op == th.op && (th'.pc.RetPush? ==> th.pushed) && th'.pushed == th.pushed;
  }

  // ---------------------------------------------------------------- whole runs

  ghost predicate History(s: State) {
    && Legal(DequeSpec, [], s.trace)
    && ValueAfter(DequeSpec, [], s.trace) == Contents(s.mem)
    && forall t: nat :: PhaseOf(s.trace, t) == if t < |s.threads| then PhaseNow(s.mem, s.threads[t]) else Quiet
  }

  ghost predicate ThreadsInv(m: Mem, threads: seq<Local>) {
    && (forall t :: 0 <= t < |threads| ==> ThreadInv(m, threads[t]))
    && (forall t, u :: 0 <= t < u < |threads| && Owns(threads[t]) && Owns(threads[u]) ==> threads[t].node != threads[u].node)
  }

  ghost predicate Inv(s: State) {
    MemInv(s.mem) && ThreadsInv(s.mem, s.threads) && History(s)
  }

  lemma ThreadsKept(m: Mem, m': Mem, threads: seq<Local>, t: nat, th': Local, own: Ptr)
    requires MemInv(m) && ThreadsInv(m, threads) && t < |threads|
    requires Rely(m, m', own) && ThreadInv(m', th')
    requires forall u :: 0 <= u < |threads| && u != t && Owns(threads[u]) ==> threads[u].node != own
    requires Owns(th') ==> th'.node == own
    ensures ThreadsInv(m', threads[t := th'])
  {
    var threads' := threads[t := th'];
    forall u | 0 <= u < |threads'| ensures ThreadInv(m', threads'[u]) {
      if u != t { ThreadStable(m, m', own, threads[u]); }
    }
  }

  lemma PhasesKept(m: Mem, m': Mem, own: Ptr, th: Local)
    requires Rely(m, m', own) && ThreadInv(m, th)
    ensures PhaseNow(m', th) == PhaseNow(m, th)
  {
  }

  lemma HistoryKept(s: State, s': State, t: nat, own: Ptr, es: seq<Event<Op, Ret>>)
    requires History(s) && t < |s.threads| && |s'.threads| == |s.threads| && s'.trace == s.trace + es
    requires Rely(s.mem, s'.mem, own) && ThreadsInv(s.mem, s.threads)
    requires forall u :: 0 <= u < |s.threads| && u != t ==> s'.threads[u] == s.threads[u]
    requires Explains(s.mem, PhaseNow(s.mem, s.threads[t]), t, es, s'.mem, PhaseNow(s'.mem, s'.threads[t]))
    ensures History(s')
  {
    forall u | 0 <= u < |s.threads| && u != t ensures PhaseNow(s'.mem, s'.threads[u]) == PhaseNow(s.mem, s.threads[u]) {
      PhasesKept(s.mem, s'.mem, own, s.threads[u]);
    }
    if es == [] {
      assert s'.trace == s.trace;
    } else {
      assert es == [es[0]];
      AppendEvent(DequeSpec, [], s.trace, es[0]);
    }
  }

  lemma SameContents(m: Mem, m': Mem)
    requires MemInv(m) && m'.q == m.q && |m.data| <= |m'.data| && m'.data[..|m.data|] == m.data
    ensures Contents(m') == Contents(m)
  {
    forall i | 0 <= i < |m.q| ensures Value(m', m.q[i]) == Value(m, m.q[i]) {
      assert m.q[i] in m.q;
      assert m'.data[..|m.data|][m.q[i]] == m'.data[m.q[i]];
    }
  }

  lemma InvokeKeeps(s: State, t: nat, op: Op)
    requires Inv(s) && t < |s.threads| && s.threads[t].Idle?
    ensures Inv(Apply(s, Invoke(t, op)))
  {
    var own := |s.mem.data|;
    var (m', th') := Enter(s.mem, op);
    NothingKeeps(s.mem, own);
    if op.Push? {
      FreshNodeKeepsMem(s.mem, op.v);
      FreshNodeRely(s.mem, op.v);
    }
    SameContents(s.mem, m');
    ThreadsKept(s.mem, m', s.threads, t, th', own);
    HistoryKept(s, Apply(s, Invoke(t, op)), t, own, [Call(t, op)]);
  }

  lemma ContinueKeeps(s: State, t: nat)
    requires Inv(s) && t < |s.threads| && s.threads[t].Busy?
    ensures Inv(Apply(s, Continue(t)))
  {
    var th := s.threads[t];
    StepKeeps(s.mem, th, t);
    StepRefinesDeque(s.mem, th, t);
    var (m', th', es) := Step(s.mem, th, t);
    ThreadsKept(s.mem, m', s.threads, t, th', OwnNode(th));
    HistoryKept(s, Apply(s, Continue(t)), t, OwnNode(th), es);
  }

  lemma ApplyKeeps(s: State, act: Action)
    requires Inv(s)
    ensures Inv(Apply(s, act))
  {
    if act.t < |s.threads| {
      if act.Invoke? && s.threads[act.t].Idle? { InvokeKeeps(s, act.t, act.op); }
      if act.Continue? && s.threads[act.t].Busy? { ContinueKeeps(s, act.t); }
    }
  }

  /** Everything above holds after every schedule of any number of threads. */
  lemma {:induction false} RunKeeps(n: nat, sched: seq<Action>)
    ensures Inv(Exec(Init(n), sched))
  {
    if sched == [] {
      assert Contents(Init(n).mem) == [];
    } else {
      RunKeeps(n, sched[..|sched| - 1]);
      ApplyKeeps(Exec(Init(n), sched[..|sched| - 1]), sched[|sched| - 1]);
    }
  }
}
