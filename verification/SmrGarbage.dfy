/**
 How much the retired lists can hold: a pop that has retired its node scans as soon as the threshold RH is reached, so
 in every run the nodes that are retired and not yet released are bounded by the number of hazard-pointer records.
 And none is lost: a node that has left the stack is with the thread that popped it, or in the list that its place names.
 */
module SmrGarbage {
  import opened Sequences
  import opened Smr
  import opened SmrProof
  import opened SmrResults

  // ---------------------------------------------------------------- bounds

  /** RH never exceeds this. */
  function Limit(hpCount: nat): nat { if hpCount < 8 then 16 else 2 * hpCount }

  /** The thread has put a node in its retired list and has not yet decided about it. */
  predicate Deciding(pc: PC) { pc.ChkRH? || pc.ScanHead? || pc.ScanSlot? || pc.ScanFree? }

  predicate RecBounded(c: Rec, listed: bool, hpCount: nat) {
    && c.nrThreads <= hpCount && |c.rlist| + |c.kept| <= c.rcount <= Limit(hpCount) + 1
    && (!c.active ==> c.rcount <= Limit(hpCount)) && (!listed ==> c.rcount == 0)
  }

  predicate MemBounded(m: Mem) {
    m.rh <= Limit(m.hpCount) && forall r :: 0 <= r < |m.recs| ==> RecBounded(m.recs[r], r in m.order, m.hpCount)
  }

  predicate ThreadBounded(m: Mem, th: Local) {
    && (th.pc.StoreRH? ==> th.nr <= m.hpCount)
    && (th.pc.ScanSlot? || th.pc.ScanFree? ==> th.max <= m.hpCount)
    && (th.rec != NULL && !Deciding(th.pc) ==> R(m, th.rec).rcount <= Limit(m.hpCount))
  }

  /** A step changes one record at most. */
  lemma OneRecord(m: Mem, m': Mem, r: RecPtr)
    requires MemBounded(m) && m.hpCount <= m'.hpCount && m'.rh <= Limit(m'.hpCount)
    requires |m.recs| <= |m'.recs| && forall q {:trigger m'.recs[q]} :: 0 <= q < |m'.recs| && q != r ==> q < |m.recs| && m'.recs[q] == m.recs[q]
    requires r < |m'.recs| ==> RecBounded(m'.recs[r], r in m'.order, m'.hpCount)
    requires m'.order == m.order || m'.order == m.order + [r]
    ensures MemBounded(m')
  {
    forall q | 0 <= q < |m'.recs| ensures RecBounded(m'.recs[q], q in m'.order, m'.hpCount) {
      var c := m'.recs[q];
      if q != r {
        assert q < |m.recs| && m.recs[q] == c;
        assert RecBounded(m.recs[q], q in m.order, m.hpCount);
      }
    }
  }

  ghost predicate StepBounded(m: Mem, th: Local, t: nat, addr: Ptr)
    requires Smr.Sized(m)
  {
    var (m', th', _) := Step(m, th, t, addr);
    MemBounded(m') && ThreadBounded(m', th')
  }

  predicate BuildsRecord(pc: PC) { pc.NewRec? || pc.LinkRec? || pc.SizeRec? || pc.PushRec? }

  lemma BuildBounds(m: Mem, th: Local, t: nat, addr: Ptr)
    requires MemInv(m) && ThreadInv(m, th, t) && MemBounded(m) && ThreadBounded(m, th) && BuildsRecord(th.pc)
    ensures StepBounded(m, th, t, addr)
  {
    var (m', th', _) := Step(m, th, t, addr);
    assert R(m, th.rec) == NoRec || RecBounded(m.recs[th.rec], th.rec in m.order, m.hpCount);
    OneRecord(m, m', StepRec(th, th'));
  }

  lemma ClaimBounds(m: Mem, th: Local, t: nat, addr: Ptr)
    requires MemInv(m) && ThreadInv(m, th, t) && MemBounded(m) && ThreadBounded(m, th)
    requires Registering(th) && !BuildsRecord(th.pc)
    ensures StepBounded(m, th, t, addr)
  {
    var (m', th', _) := Step(m, th, t, addr);
    assert R(m, th.cur) == NoRec || RecBounded(m.recs[th.cur], th.cur in m.order, m.hpCount);
    OneRecord(m, m', StepRec(th, th'));
  }

  lemma RetireBounds(m: Mem, th: Local, t: nat, addr: Ptr)
    requires MemInv(m) && ThreadInv(m, th, t) && MemBounded(m) && ThreadBounded(m, th) && th.pc.Retire?
    ensures StepBounded(m, th, t, addr)
  {
    var (m', th', _) := Step(m, th, t, addr);
    assert RecBounded(m.recs[th.rec], th.rec in m.order, m.hpCount);
    OneRecord(m, m', th.rec);
  }

  lemma LeaveBounds(m: Mem, th: Local, t: nat, addr: Ptr)
    requires MemInv(m) && ThreadInv(m, th, t) && MemBounded(m) && ThreadBounded(m, th)
    requires th.pc.NewNode? || th.pc.ExitClean? || th.pc.ExitClear? || th.pc.ExitRelease?
    ensures StepBounded(m, th, t, addr)
  {
    var (m', th', _) := Step(m, th, t, addr);
    assert RecBounded(m.recs[th.rec], th.rec in m.order, m.hpCount);
    OneRecord(m, m', th.rec);
  }

  /** The decision: below the threshold, or scan. */
  lemma DecideBounds(m: Mem, th: Local, t: nat, addr: Ptr)
    requires MemInv(m) && ThreadInv(m, th, t) && MemBounded(m) && ThreadBounded(m, th)
    requires th.pc.ChkRH? || th.pc.ScanHead? || th.pc.ScanSlot?
    ensures StepBounded(m, th, t, addr)
  {
    assert RecBounded(m.recs[th.rec], th.rec in m.order, m.hpCount);
    assert R(m, m.head) == NoRec || RecBounded(m.recs[m.head], m.head in m.order, m.hpCount);
  }

  /** What a scan keeps is in its copy of the hazard slots, which has as many places as there were records. */
  lemma KeptFew(m: Mem, th: Local, t: nat)
    requires MemInv(m) && ThreadInv(m, th, t) && ThreadBounded(m, th) && th.pc.ScanFree?
    ensures th.nr == |R(m, th.rec).kept| <= m.hpCount
  {
    ThreadKeepsFew(m, th, t);
    ElementsFit(th.plist);
  }

  lemma {:induction false} ElementsFit<T(!new)>(s: seq<T>)
    ensures |Elements(s)| <= |s|
  {
    if s != [] {
      ElementsFit(s[..|s| - 1]);
      assert s == s[..|s| - 1] + [s[|s| - 1]];
      assert Elements(s) == Elements(s[..|s| - 1]) + {s[|s| - 1]};
    }
  }

  lemma ScanBounds(m: Mem, th: Local, t: nat, addr: Ptr)
    requires MemInv(m) && ThreadInv(m, th, t) && MemBounded(m) && ThreadBounded(m, th) && th.pc.ScanFree?
    ensures StepBounded(m, th, t, addr)
  {
    var (m', th', _) := Step(m, th, t, addr);
    KeptFew(m, th, t);
    assert RecBounded(m.recs[th.rec], th.rec in m.order, m.hpCount);
    ScanRecord(m, th, t, addr);
    OneRecord(m, m', th.rec);
  }

  lemma ScanRecord(m: Mem, th: Local, t: nat, addr: Ptr)
    requires Smr.Sized(m) && th.pc.ScanFree? && 0 < th.rec < |m.recs|
    ensures var (m', th', _) := Step(m, th, t, addr); var c, c' := m.recs[th.rec], R(m', th.rec);
      && m'.order == m.order && m'.hpCount == m.hpCount && m'.rh == m.rh && m'.recs == m.recs[th.rec := c']
      && c'.nrThreads == c.nrThreads && c'.active == c.active
      && (if c.rlist == [] then c'.rlist == c.kept && c'.kept == [] && c'.rcount == th.nr
          else |c'.rlist| + |c'.kept| <= |c.rlist| + |c.kept| && c'.rcount == c.rcount)
      && th'.rec == th.rec && th'.max == th.max && (if c.rlist == [] then th'.pc.RetPop? else th'.pc.ScanFree?)
  {
  }

  predicate WritesOwnSlot(pc: PC) {
    pc.PopGuard? || pc.PopCheck? || pc.PopClear? || pc.PeekGuard? || pc.PeekCheck? || pc.PeekClear?
  }

  lemma SlotBounds(m: Mem, th: Local, t: nat, addr: Ptr)
    requires MemInv(m) && ThreadInv(m, th, t) && MemBounded(m) && ThreadBounded(m, th) && WritesOwnSlot(th.pc)
    ensures StepBounded(m, th, t, addr)
  {
    var (m', th', _) := Step(m, th, t, addr);
    assert RecBounded(m.recs[th.rec], th.rec in m.order, m.hpCount);
    OneRecord(m, m', th.rec);
  }

  lemma OtherBounds(m: Mem, th: Local, t: nat, addr: Ptr)
    requires MemInv(m) && ThreadInv(m, th, t) && MemBounded(m) && ThreadBounded(m, th)
    requires !Registering(th) && !Reclaiming(th.pc) && !WritesOwnSlot(th.pc)
    ensures StepBounded(m, th, t, addr)
  {
    OtherLeaves(m, th, t, addr);
  }

  lemma OtherLeaves(m: Mem, th: Local, t: nat, addr: Ptr)
    requires Smr.Sized(m) && !Registering(th) && !Reclaiming(th.pc) && !WritesOwnSlot(th.pc)
    ensures var (m', th', _) := Step(m, th, t, addr);
      && m'.recs == m.recs && m'.order == m.order && m'.hpCount == m.hpCount && m'.rh == m.rh && th'.rec == th.rec
      && !Deciding(th'.pc) && !th'.pc.StoreRH?
  {
  }

  lemma StepBounds(m: Mem, th: Local, t: nat, addr: Ptr)
    requires MemInv(m) && ThreadInv(m, th, t) && MemBounded(m) && ThreadBounded(m, th)
    ensures StepBounded(m, th, t, addr)
  {
    if BuildsRecord(th.pc) { BuildBounds(m, th, t, addr); }
    else if Registering(th) { ClaimBounds(m, th, t, addr); }
    else if th.pc.ScanFree? { ScanBounds(m, th, t, addr); }
    else if th.pc.ChkRH? || th.pc.ScanHead? || th.pc.ScanSlot? { DecideBounds(m, th, t, addr); }
    else if th.pc.Retire? { RetireBounds(m, th, t, addr); }
    else if Reclaiming(th.pc) { LeaveBounds(m, th, t, addr); }
    else if WritesOwnSlot(th.pc) { SlotBounds(m, th, t, addr); }
    else { OtherBounds(m, th, t, addr); }
  }

  ghost predicate Bounded(s: State) {
    MemBounded(s.mem) && forall t :: 0 <= t < |s.threads| ==> ThreadBounded(s.mem, s.threads[t])
  }

  lemma CountGrows(m: Mem, th: Local, t: nat, addr: Ptr)
    requires Smr.Sized(m)
    ensures Step(m, th, t, addr).0.hpCount >= m.hpCount
  {
    if Registering(th) { } else if Reclaiming(th.pc) { ReclaimingCounts(m, th, t, addr); } else { OtherCounts(m, th, t, addr); }
  }

  lemma OtherBounded(m: Mem, threads: seq<Local>, t: nat, addr: Ptr, u: nat)
    requires MemInv(m) && ThreadsInv(m, threads) && t < |threads| && StepKept(m, threads[t], t, addr)
    requires u < |threads| && u != t && ThreadBounded(m, threads[u])
    ensures ThreadBounded(Step(m, threads[t], t, addr).0, threads[u])
  {
    var (m', th', _) := Step(m, threads[t], t, addr);
    CountGrows(m, threads[t], t, addr);
    OtherRecord(m, threads, t, addr, u);
    if threads[u].rec != NULL {
      OwnRecordActive(m, threads[u], u);
      RecordStable(m, m', t, StepRec(threads[t], th'), threads[u]);
    }
  }

  lemma ApplyBounds(s: State, act: Action)
    requires Inv(s) && Bounded(s)
    ensures Bounded(Apply(s, act))
  {
    var t := act.t;
    if t < |s.threads| && act.Continue? {
      var (m', th', _) := Step(s.mem, s.threads[t], t, act.addr);
      StepRefinesStack(s.mem, s.threads[t], t, act.addr);
      StepBounds(s.mem, s.threads[t], t, act.addr);
      var threads' := s.threads[t := th'];
      forall u | 0 <= u < |threads'| ensures ThreadBounded(m', threads'[u]) {
        if u != t { OtherBounded(s.mem, s.threads, t, act.addr, u); }
      }
    }
  }

  lemma {:induction false} RunBounds(n: nat, sched: seq<Action>)
    ensures Inv(Exec(Init(n), sched)) && Bounded(Exec(Init(n), sched))
  {
    RunKeeps(n, sched);
    if sched != [] {
      RunBounds(n, sched[..|sched| - 1]);
      ApplyBounds(Exec(Init(n), sched[..|sched| - 1]), sched[|sched| - 1]);
    }
  }

  // ---------------------------------------------------------------- nothing is lost

  predicate Pushing(pc: PC) { pc.ReadTop? || pc.WriteNext? || pc.CasPush? }
  predicate Delivering(pc: PC) { pc.PopClear? || pc.PopData? || pc.Retire? }

  /** Node x is where its place says, as far as memory and thread t go. */
  predicate Place(m: Mem, th: Local, t: nat, x: Ptr)
    requires x < |m.own|
  {
    match m.own[x]
    case Nowhere => x == NULL
    case Heap => true
    case OnStack => x in m.stack
    case Free(r) => x in R(m, r).free
    case Retired(r) => x in R(m, r).rlist || x in R(m, r).kept
    case Private(u) => u == t ==> th.node == x && Pushing(th.pc)
    case Popped(u) => u == t ==> th.oldTop == x && Delivering(th.pc)
  }

  predicate Places(m: Mem, th: Local, t: nat) {
    forall x :: 0 <= x < |m.own| ==> Place(m, th, t, x)
  }

  /** The step leaves nodes that other threads hold, and hands none out to them. */
  predicate OthersNodes(m: Mem, m': Mem, t: nat) {
    forall x :: 0 <= x < |m'.own| && (m'.own[x].Private? || m'.own[x].Popped?) && m'.own[x].t != t ==>
      x < |m.own| && m.own[x] == m'.own[x]
  }

  ghost predicate StepPlaces(m: Mem, th: Local, t: nat, addr: Ptr)
    requires Smr.Sized(m)
  {
    var (m', th', _) := Step(m, th, t, addr);
    Places(m', th', t) && OthersNodes(m, m', t)
  }

  predicate MovesNode(pc: PC) {
    pc.NewNode? || pc.CasPush? || pc.CasPop? || pc.Retire? || pc.ScanFree? || pc.ExitClean?
  }

  predicate SameLists(m: Mem, m': Mem) {
    |m.recs| <= |m'.recs| && forall r :: 0 <= r < |m.recs| ==>
      m'.recs[r].free == m.recs[r].free && m'.recs[r].rlist == m.recs[r].rlist && m'.recs[r].kept == m.recs[r].kept
  }

  ghost predicate QuietMemory(m: Mem, th: Local, t: nat, addr: Ptr)
    requires Smr.Sized(m)
  {
    var m' := Step(m, th, t, addr).0;
    m'.own == m.own && m'.stack == m.stack && SameLists(m, m')
  }

  lemma RegisteringQuiet(m: Mem, th: Local, t: nat, addr: Ptr)
    requires Smr.Sized(m) && Registering(th)
    ensures QuietMemory(m, th, t, addr)
  {
  }

  lemma SlotQuiet(m: Mem, th: Local, t: nat, addr: Ptr)
    requires Smr.Sized(m) && (WritesOwnSlot(th.pc) || th.pc.ExitClear? || th.pc.ExitRelease?)
    ensures QuietMemory(m, th, t, addr)
  {
  }

  lemma ReadQuiet(m: Mem, th: Local, t: nat, addr: Ptr)
    requires Smr.Sized(m) && !MovesNode(th.pc) && !Registering(th)
    requires !WritesOwnSlot(th.pc) && !th.pc.ExitClear? && !th.pc.ExitRelease?
    ensures QuietMemory(m, th, t, addr)
  {
  }

  lemma QuietLists(m: Mem, th: Local, t: nat, addr: Ptr)
    requires Smr.Sized(m) && !MovesNode(th.pc)
    ensures QuietMemory(m, th, t, addr)
  {
    if Registering(th) { RegisteringQuiet(m, th, t, addr); }
    else if WritesOwnSlot(th.pc) || th.pc.ExitClear? || th.pc.ExitRelease? { SlotQuiet(m, th, t, addr); }
    else { ReadQuiet(m, th, t, addr); }
  }

  lemma QuietPlaces(m: Mem, th: Local, t: nat, addr: Ptr)
    requires MemInv(m) && Places(m, th, t) && !MovesNode(th.pc)
    ensures StepPlaces(m, th, t, addr)
  {
    var (m', th', _) := Step(m, th, t, addr);
    QuietLists(m, th, t, addr);
    QuietHolder(m, th, t, addr);
    forall x | 0 <= x < |m'.own| ensures Place(m', th', t, x) { assert Place(m, th, t, x); }
  }

  lemma QuietHolder(m: Mem, th: Local, t: nat, addr: Ptr)
    requires Smr.Sized(m) && !MovesNode(th.pc)
    ensures var th' := Step(m, th, t, addr).1;
      (Pushing(th.pc) ==> Pushing(th'.pc) && th'.node == th.node) && (Delivering(th.pc) ==> Delivering(th'.pc) && th'.oldTop == th.oldTop)
  {
  }

  lemma NewNodePlaces(m: Mem, th: Local, t: nat, addr: Ptr)
    requires MemInv(m) && ThreadInv(m, th, t) && Places(m, th, t) && th.pc.NewNode?
    ensures StepPlaces(m, th, t, addr)
  {
    var (m', th', _) := Step(m, th, t, addr);
    var f := R(m, th.rec).free;
    assert RecOk(m, th.rec);
    if f != [] {
      assert f[|f| - 1] in f;
      FreeSplit(f);
    }
    BuiltNode(m, th, t, addr);
    forall x | 0 <= x < |m'.own| ensures Place(m', th', t, x) {
      if x < |m.own| { assert Place(m, th, t, x); }
    }
  }

  lemma FreeSplit(f: seq<Ptr>)
    requires f != []
    ensures forall x :: x in f <==> x in f[..|f| - 1] || x == f[|f| - 1]
  {
    assert f == f[..|f| - 1] + [f[|f| - 1]];
  }

  /** What an allocation does to places. */
  lemma BuiltNode(m: Mem, th: Local, t: nat, addr: Ptr)
    requires Smr.Sized(m) && th.pc.NewNode? && th.rec < |m.recs|
    requires var f := m.recs[th.rec].free; f != [] ==> f[|f| - 1] < |m.own|
    ensures var (m', th', _) := Step(m, th, t, addr); var p, f := th'.node, m.recs[th.rec].free;
      && Pushing(th'.pc) && p <= |m.own| && m'.stack == m.stack
      && (forall r :: 0 <= r < |m.recs| ==> R(m', r).rlist == m.recs[r].rlist && R(m', r).kept == m.recs[r].kept)
      && (forall r :: 0 <= r < |m.recs| && r != th.rec ==> R(m', r).free == m.recs[r].free)
      && (if f == [] then R(m', th.rec).free == [] else p == f[|f| - 1] && R(m', th.rec).free == f[..|f| - 1])
      && |m'.recs| == |m.recs| && m'.own == if p < |m.own| then m.own[p := Private(t)] else m.own + [Private(t)]
  {
  }

  lemma StackPlaces(m: Mem, th: Local, t: nat, addr: Ptr)
    requires MemInv(m) && ThreadInv(m, th, t) && Places(m, th, t) && (th.pc.CasPush? || th.pc.CasPop?)
    ensures StepPlaces(m, th, t, addr)
  {
    var (m', th', _) := Step(m, th, t, addr);
    if m.top == th.oldTop && th.pc.CasPop? { TopOnStack(m); }
    forall x | 0 <= x < |m'.own| ensures Place(m', th', t, x) { assert Place(m, th, t, x); }
  }

  lemma RetirePlaces(m: Mem, th: Local, t: nat, addr: Ptr)
    requires MemInv(m) && ThreadInv(m, th, t) && Places(m, th, t) && (th.pc.Retire? || th.pc.ExitClean?)
    ensures StepPlaces(m, th, t, addr)
  {
    var (m', th', _) := Step(m, th, t, addr);
    assert RecOk(m, th.rec);
    forall x | 0 <= x < |m'.own| ensures Place(m', th', t, x) { assert Place(m, th, t, x); }
  }

  /** Keeping one node, and ending the walk. */
  lemma KeepPlaces(m: Mem, th: Local, t: nat, addr: Ptr)
    requires MemInv(m) && ThreadInv(m, th, t) && Places(m, th, t) && th.pc.ScanFree?
    requires var l := R(m, th.rec).rlist; l == [] || l[0] in th.plist
    ensures StepPlaces(m, th, t, addr)
  {
    KeptNode(m, th, t, addr);
    KeptPlaces(m, Step(m, th, t, addr).0, th, Step(m, th, t, addr).1, t);
  }

  /** The step changes nothing but the order of the thread's retired nodes. */
  predicate Reordered(m: Mem, m': Mem, r: RecPtr) {
    && r < |m.recs| == |m'.recs| && m'.own == m.own && m'.stack == m.stack
    && (forall q :: 0 <= q < |m.recs| && q != r ==> m'.recs[q] == m.recs[q])
    && m'.recs[r].free == m.recs[r].free
    && var l, k, l', k' := m.recs[r].rlist, m.recs[r].kept, m'.recs[r].rlist, m'.recs[r].kept;
       (l == [] && l' == k && k' == []) || (l != [] && l' == l[1..] && k' == [l[0]] + k)
  }

  lemma KeptNode(m: Mem, th: Local, t: nat, addr: Ptr)
    requires Smr.Sized(m) && th.pc.ScanFree? && th.rec < |m.recs|
    requires var l := R(m, th.rec).rlist; l == [] || l[0] in th.plist
    ensures var (m', th', _) := Step(m, th, t, addr); Reordered(m, m', th.rec) && !Pushing(th'.pc) && !Delivering(th'.pc)
  {
  }

  lemma KeptPlaces(m: Mem, m': Mem, th: Local, th': Local, t: nat)
    requires Places(m, th, t) && Reordered(m, m', th.rec) && !Pushing(th.pc) && !Delivering(th.pc)
    ensures Places(m', th', t) && OthersNodes(m, m', t)
  {
    var l := m.recs[th.rec].rlist;
    if l != [] { assert l == [l[0]] + l[1..]; }
    forall x | 0 <= x < |m'.own| ensures Place(m', th', t, x) { assert Place(m, th, t, x); }
  }

  lemma ReleasePlaces(m: Mem, th: Local, t: nat, addr: Ptr)
    requires MemInv(m) && ThreadInv(m, th, t) && Places(m, th, t) && th.pc.ScanFree?
    requires var l := R(m, th.rec).rlist; l != [] && l[0] !in th.plist
    ensures StepPlaces(m, th, t, addr)
  {
    var (m', th', _) := Step(m, th, t, addr);
    var l := R(m, th.rec).rlist;
    assert l[0] < |m.own| by {
      assert RecOk(m, th.rec);
      assert l[0] in l + R(m, th.rec).kept;
    }
    FreedNode(m, th, t, addr);
    FreedPlaces(m, m', th, t, if m'.own[l[0]].Heap? then Heap else Free(th.rec));
  }

  lemma FreedPlaces(m: Mem, m': Mem, th: Local, t: nat, w: Where)
    requires Places(m, th, t) && th.rec < |m.recs| && |m'.recs| == |m.recs| && m'.stack == m.stack
    requires forall r :: 0 <= r < |m.recs| && r != th.rec ==> m'.recs[r] == m.recs[r]
    requires m.recs[th.rec].rlist != [] && m.recs[th.rec].rlist[0] < |m.own|
    requires var c, c', x := m.recs[th.rec], m'.recs[th.rec], m.recs[th.rec].rlist[0];
      && c'.rlist == c.rlist[1..] && c'.kept == c.kept && m'.own == m.own[x := w]
      && ((w == Free(th.rec) && c'.free == c.free + [x]) || (w == Heap && c'.free == c.free))
    ensures Places(m', th, t) && OthersNodes(m, m', t)
  {
    var l := m.recs[th.rec].rlist;
    assert l == [l[0]] + l[1..];
    forall x | 0 <= x < |m'.own| ensures Place(m', th, t, x) { assert Place(m, th, t, x); }
  }

  lemma FreedNode(m: Mem, th: Local, t: nat, addr: Ptr)
    requires Smr.Sized(m) && th.pc.ScanFree? && th.rec < |m.recs|
    requires var l := m.recs[th.rec].rlist; l != [] && l[0] !in th.plist && l[0] < |m.own|
    ensures var (m', th', _) := Step(m, th, t, addr); var c, c' := m.recs[th.rec], R(m', th.rec); var x := c.rlist[0];
      && th' == th && m'.stack == m.stack && m'.recs == m.recs[th.rec := c'] && c'.rlist == c.rlist[1..] && c'.kept == c.kept
      && ((m'.own == m.own[x := Free(th.rec)] && c'.free == c.free + [x]) || (m'.own == m.own[x := Heap] && c'.free == c.free))
  {
  }

  lemma StepKeepsPlaces(m: Mem, th: Local, t: nat, addr: Ptr)
    requires MemInv(m) && ThreadInv(m, th, t) && Places(m, th, t)
    ensures StepPlaces(m, th, t, addr)
  {
    if th.pc.NewNode? { NewNodePlaces(m, th, t, addr); }
    else if th.pc.CasPush? || th.pc.CasPop? { StackPlaces(m, th, t, addr); }
    else if th.pc.Retire? || th.pc.ExitClean? { RetirePlaces(m, th, t, addr); }
    else if th.pc.ScanFree? {
      if R(m, th.rec).rlist == [] || R(m, th.rec).rlist[0] in th.plist { KeepPlaces(m, th, t, addr); }
      else { ReleasePlaces(m, th, t, addr); }
    }
    else { QuietPlaces(m, th, t, addr); }
  }

  ghost predicate NothingLost(s: State) {
    && (forall x :: 0 <= x < |s.mem.own| ==> match s.mem.own[x]
          case Private(u) => u < |s.threads|
          case Popped(u) => u < |s.threads|
          case _ => true)
    && (forall t :: 0 <= t < |s.threads| ==> Places(s.mem, s.threads[t], t))
  }

  lemma OtherPlaces(m: Mem, m': Mem, th: Local, th': Local, t: nat, other: Local, u: nat)
    requires Places(m', th', t) && OthersNodes(m, m', t) && Places(m, other, u) && u != t
    ensures Places(m', other, u)
  {
    forall x | 0 <= x < |m'.own| ensures Place(m', other, u, x) {
      assert Place(m', th', t, x);
      if x < |m.own| { assert Place(m, other, u, x); }
    }
  }

  lemma ContinueKeepsPlaces(s: State, t: nat, addr: Ptr)
    requires Inv(s) && NothingLost(s) && t < |s.threads|
    ensures NothingLost(Apply(s, Continue(t, addr)))
  {
    var m, th := s.mem, s.threads[t];
    var (m', th', _) := Step(m, th, t, addr);
    StepKeepsPlaces(m, th, t, addr);
    var threads' := s.threads[t := th'];
    forall u | 0 <= u < |threads'| ensures Places(m', threads'[u], u) {
      if u != t { OtherPlaces(m, m', th, th', t, s.threads[u], u); }
    }
  }

  lemma EnterPlaces(m: Mem, th: Local, th': Local, t: nat)
    requires Places(m, th, t) && th.pc.Idle?
    ensures Places(m, th', t)
  {
    forall x | 0 <= x < |m.own| ensures Place(m, th', t, x) { assert Place(m, th, t, x); }
  }

  lemma ApplyKeepsPlaces(s: State, act: Action)
    requires Inv(s) && NothingLost(s)
    ensures NothingLost(Apply(s, act))
  {
    var t := act.t;
    if t < |s.threads| {
      if act.Continue? { ContinueKeepsPlaces(s, t, act.addr); }
      else if s.threads[t].pc.Idle? { EnterPlaces(s.mem, s.threads[t], Apply(s, act).threads[t], t); }
    }
  }

  lemma {:induction false} RunKeepsPlaces(n: nat, sched: seq<Action>)
    ensures NothingLost(Exec(Init(n), sched))
  {
    if sched != [] {
      RunKeepsPlaces(n, sched[..|sched| - 1]);
      RunKeeps(n, sched[..|sched| - 1]);
      ApplyKeepsPlaces(Exec(Init(n), sched[..|sched| - 1]), sched[|sched| - 1]);
    }
  }

  /** Every node that was ever handed out, and is not back with the heap, is where its place says: on the stack, in the free
      list or the retired list of that record, or in the hands of that thread between the two. */
  lemma NoNodeIsLost(n: nat, sched: seq<Action>, x: Ptr)
    requires 0 < x < |Exec(Init(n), sched).mem.own|
    ensures var s := Exec(Init(n), sched); match s.mem.own[x]
      case Nowhere => false
      case Heap => true
      case OnStack => x in s.mem.stack
      case Free(r) => x in R(s.mem, r).free
      case Retired(r) => x in R(s.mem, r).rlist || x in R(s.mem, r).kept
      case Private(t) => t < |s.threads| && s.threads[t].node == x && Pushing(s.threads[t].pc)
      case Popped(t) => t < |s.threads| && s.threads[t].oldTop == x && Delivering(s.threads[t].pc)
  {
    RunKeepsPlaces(n, sched);
    var s := Exec(Init(n), sched);
    SameThreads(n, sched);
    if n > 0 { WhereItIs(s.mem, s.threads, x); } else { NothingHappens(sched); }
  }

  lemma WhereItIs(m: Mem, threads: seq<Local>, x: Ptr)
    requires 0 < x < |m.own| && threads != [] && forall t :: 0 <= t < |threads| ==> Places(m, threads[t], t)
    requires match m.own[x]
      case Private(u) => u < |threads|
      case Popped(u) => u < |threads|
      case _ => true
    ensures match m.own[x]
      case Nowhere => false
      case Heap => true
      case OnStack => x in m.stack
      case Free(r) => x in R(m, r).free
      case Retired(r) => x in R(m, r).rlist || x in R(m, r).kept
      case Private(t) => t < |threads| && threads[t].node == x && Pushing(threads[t].pc)
      case Popped(t) => t < |threads| && threads[t].oldTop == x && Delivering(threads[t].pc)
  {
    assert Place(m, threads[0], 0, x);
    if m.own[x].Private? || m.own[x].Popped? { assert Place(m, threads[m.own[x].t], m.own[x].t, x); }
  }

  lemma {:induction false} SameThreads(n: nat, sched: seq<Action>)
    ensures |Exec(Init(n), sched).threads| == n
  {
    if sched != [] { SameThreads(n, sched[..|sched| - 1]); }
  }

  lemma {:induction false} NothingHappens(sched: seq<Action>)
    ensures Exec(Init(0), sched) == Init(0)
  {
    if sched != [] { NothingHappens(sched[..|sched| - 1]); }
  }

  // ---------------------------------------------------------------- the bound

  /** What the first k records hold. */
  function Garbage(m: Mem, k: nat): seq<Ptr>
    requires k <= |m.order|
  {
    if k == 0 then [] else Garbage(m, k - 1) + R(m, m.order[k - 1]).rlist + R(m, m.order[k - 1]).kept
  }

  lemma {:induction false} GarbageFew(m: Mem, k: nat)
    requires MemBounded(m) && k <= |m.order|
    ensures |Garbage(m, k)| <= k * (Limit(m.hpCount) + 1)
  {
    if k > 0 {
      GarbageFew(m, k - 1);
      var r := m.order[k - 1];
      assert r < |m.recs| ==> RecBounded(m.recs[r], r in m.order, m.hpCount);
      OneMoreTimes(k, Limit(m.hpCount) + 1);
    }
  }

  lemma OneMoreTimes(k: nat, c: nat)
    requires k > 0
    ensures k * c == (k - 1) * c + c
  {
  }

  lemma {:induction false} GarbageHolds(m: Mem, k: nat, i: nat, x: Ptr)
    requires i < k <= |m.order| && (x in R(m, m.order[i]).rlist || x in R(m, m.order[i]).kept)
    ensures x in Garbage(m, k)
  {
    if i < k - 1 { GarbageHolds(m, k - 1, i, x); }
  }

  /** The nodes that have been retired and not released yet. */
  function Unreclaimed(m: Mem): set<Ptr> {
    set x: Ptr | x < |m.own| && m.own[x].Retired?
  }

  lemma {:induction false} SetFits<T(!new)>(a: set<T>, s: seq<T>)
    requires forall x :: x in a ==> x in s
    ensures |a| <= |s|
  {
    if s != [] {
      var x := s[|s| - 1];
      forall y | y in a - {x} ensures y in s[..|s| - 1] {
        assert s == s[..|s| - 1] + [x];
      }
      SetFits(a - {x}, s[..|s| - 1]);
    } else {
      assert a == {};
    }
  }

  lemma TimesMonotone(a: nat, b: nat, c: nat)
    requires a <= b
    ensures a * c <= b * c
  {
  }

  /** Garbage is bounded: in every run, the nodes waiting to be released are at most max(16, 2 * hpCount) + 1 for each record ever made. */
  lemma GarbageIsBounded(n: nat, sched: seq<Action>)
    ensures var m := Exec(Init(n), sched).mem; |Unreclaimed(m)| <= m.hpCount * ((if m.hpCount < 8 then 16 else 2 * m.hpCount) + 1)
  {
    RunBounds(n, sched);
    var s := Exec(Init(n), sched);
    var m := s.mem;
    forall x | x in Unreclaimed(m) ensures x in Garbage(m, |m.order|) {
      assert m.own[NULL].Nowhere?;
      NoNodeIsLost(n, sched, x);
      var r := m.own[x].r;
      assert R(m, r) == NoRec || RecBounded(m.recs[r], r in m.order, m.hpCount);
      var i :| 0 <= i < |m.order| && m.order[i] == r;
      GarbageHolds(m, |m.order|, i, x);
    }
    SetFits(Unreclaimed(m), Garbage(m, |m.order|));
    GarbageFew(m, |m.order|);
    TimesMonotone(|m.order|, m.hpCount, Limit(m.hpCount) + 1);
  }

  /** RH is at most max(16, 2 * hpCount); and so is the rcount of every record, but for one more node while the pop that
      retired it decides whether to scan, and scans. */
  lemma RetiredListsAreBounded(n: nat, sched: seq<Action>, t: nat)
    requires t < |Exec(Init(n), sched).threads| && Exec(Init(n), sched).threads[t].rec != NULL
    ensures var s := Exec(Init(n), sched); var th := s.threads[t]; var c := R(s.mem, th.rec);
      var limit := if s.mem.hpCount < 8 then 16 else 2 * s.mem.hpCount;
      && s.mem.rh <= limit
      && |c.rlist| + |c.kept| <= c.rcount <= limit + 1
      && (th.pc.ChkRH? || th.pc.ScanHead? || th.pc.ScanSlot? || th.pc.ScanFree? || c.rcount <= limit)
  {
    RunBounds(n, sched);
    var s := Exec(Init(n), sched);
    assert ThreadBounded(s.mem, s.threads[t]);
    OwnRecordActive(s.mem, s.threads[t], t);
    assert RecBounded(s.mem.recs[s.threads[t].rec], s.threads[t].rec in s.mem.order, s.mem.hpCount);
  }

  /** And the retired list of a record that nobody has claimed is as short. */
  lemma LeftListsAreBounded(n: nat, sched: seq<Action>, r: RecPtr)
    requires r < |Exec(Init(n), sched).mem.recs| && !Exec(Init(n), sched).mem.recs[r].active
    ensures var m := Exec(Init(n), sched).mem; |m.recs[r].rlist| == m.recs[r].rcount <= if m.hpCount < 8 then 16 else 2 * m.hpCount
  {
    RunBounds(n, sched);
    var m := Exec(Init(n), sched).mem;
    assert RecBounded(m.recs[r], r in m.order, m.hpCount) && RecOk(m, r);
  }
}
