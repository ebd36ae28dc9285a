/**
 That a list call that runs on its own answers: it starts over at most once, and then meets each node of the list at most
 once, unlinking those that are marked.
 */
module ListProgress {
  import opened ListCore
  import opened ListProof

  /** How many nodes of the chain are left from p on. */
  function Rest(m: Mem, p: Ptr): nat { |m.chain| - IndexOf(m.chain, p) }

  /** prev still holds cur, unmarked. */
  predicate Good(m: Mem, l: Local) { Load(m, l, l.prev) == Link(l.cur, false) }
  predicate GoodNext(m: Mem, l: Local) { Next(m, l.cur) == l.next }

  /** What the call has read is still so. */
  predicate Current(m: Mem, l: Local) {
    Good(m, l) && (l.pc.RecheckNext? || l.pc.RecheckPrev? || l.pc.MarkCur? ==> GoodNext(m, l))
  }

  /** Instructions to the answer if nothing that was read has changed. */
  function ToAnswer(m: Mem, l: Local): nat {
    var r := 4 * Rest(m, l.cur);
    match l.pc
    case RecheckStart => r + 6
    case ReadNext => r + 5
    case RecheckNext => r + 4
    case RecheckPrev => r + 3
    case Unlink => r + 2
    case WriteNext => 3
    case MarkCur => 3
    case CasAdd => 2
    case UnlinkMarked => 2
    case _ => 1
  }

  /** Instructions until the call starts over if something has. */
  function ToRestart(m: Mem, l: Local): nat {
    match l.pc
    case ReadNext => 3
    case RecheckNext => if GoodNext(m, l) then 2 else 1
    case RecheckPrev => if Good(m, l) then 4 else 1
    case WriteNext => 2
    case MarkCur => 2
    case _ => 1
  }

  function Anew(m: Mem): nat { 4 * |m.chain| + 8 }

  /** At most this many instructions remain, if nobody else runs. */
  function Rank(m: Mem, l: Local): nat {
    if l.pc.Crash? then 0
    else if l.pc.Answer? then 1
    else if l.pc.ReadStart? then Anew(m)
    else if Current(m, l) then ToAnswer(m, l)
    else ToRestart(m, l) + Anew(m)
  }

  lemma RankIsSmall(m: Mem, l: Local)
    ensures Rank(m, l) <= 4 * |m.chain| + 12 && (!l.pc.Crash? ==> Rank(m, l) > 0)
  {
  }

  /** Memory as this needs it: along the chain, each node leads to the next. */
  ghost predicate Chained(m: Mem) {
    && (forall i, j :: 0 <= i < j < |m.chain| ==> m.chain[i] != m.chain[j])
    && (forall i {:trigger m.chain[i]} :: 0 <= i < |m.chain| ==>
          0 < m.chain[i] < |m.next| && Next(m, m.chain[i]).p == NodeAt(m.chain, i + 1))
  }

  lemma InvChained(m: Mem)
    requires MemInv(m)
    ensures Chained(m)
  {
    forall i, j | 0 <= i < j < |m.chain| ensures m.chain[i] != m.chain[j] {
      assert Less(m.keys[m.chain[i]], m.keys[m.chain[j]]);
    }
    forall i | 0 <= i < |m.chain| ensures 0 < m.chain[i] < |m.next| && Next(m, m.chain[i]).p == NodeAt(m.chain, i + 1) {
      assert m.next[m.chain[i]].p == NodeAt(m.chain, i + 1);
    }
  }

  lemma NextRest(m: Mem, p: Ptr)
    requires Chained(m) && p in m.chain
    ensures Rest(m, p) > 0 && Rest(m, Next(m, p).p) == Rest(m, p) - 1
  {
    var i := IndexOf(m.chain, p);
    var q := NodeAt(m.chain, i + 1);
    assert m.chain[i] == p;
    if i + 1 < |m.chain| { assert m.chain[i + 1] == q && q in m.chain; } else { NullOutside(m); }
  }

  lemma NullOutside(m: Mem)
    requires Chained(m)
    ensures NULL !in m.chain && Rest(m, NULL) == 0
  {
    forall i | 0 <= i < |m.chain| ensures m.chain[i] != NULL {}
  }

  /** A cur that prev still holds is in the chain. */
  lemma GoodInChain(m: Mem, l: Local)
    requires MemInv(m) && Pinned(m, l) && Behind(m, l) && Good(m, l) && l.cur != NULL
    ensures l.cur in m.chain
  {
    if l.prev.Copy? { InChain(m, l.copy.p); } else { AtPrev(m, l); }
  }

  lemma DecideGains(m: Mem, l: Local, found: bool)
    requires l.took || (if found then l.kind.Remove? ==> Good(m, l) && GoodNext(m, l) else Good(m, l))
    ensures Rank(m, Decide(l, found)) <= 3
  {
  }

  ghost predicate Gains(m: Mem, l: Local) {
    var (m', l', _) := Step(m, l);
    Rank(m', l') < Rank(m, l)
  }

  lemma StartGains(m: Mem, l: Local)
    requires l.pc.ReadStart? || l.pc.RecheckStart?
    ensures Gains(m, l)
  {
  }

  lemma ReadNextGains(m: Mem, l: Local)
    requires l.pc.ReadNext?
    ensures Gains(m, l)
  {
  }

  lemma RecheckNextGains(m: Mem, l: Local)
    requires l.pc.RecheckNext?
    ensures Gains(m, l)
  {
    var l' := Step(m, l).1;
    if GoodNext(m, l) {
      assert l' == l.(pc := RecheckPrev, seen := l'.seen);
      if Good(m, l) { RankAtPrev(m, l'); }
    }
  }

  lemma RankAtPrev(m: Mem, l: Local)
    requires l.pc.RecheckPrev? && Good(m, l)
    ensures Rank(m, l) == if GoodNext(m, l) then 4 * Rest(m, l.cur) + 3 else Anew(m) + 4
  {
  }

  lemma RankAtNext(m: Mem, l: Local)
    requires l.pc.ReadNext?
    ensures Rank(m, l) == if Good(m, l) then 4 * Rest(m, l.cur) + 5 else Anew(m) + 3
  {
  }

  /** Going on to the next node. */
  lemma GoesOnGains(m: Mem, l: Local)
    requires l.pc.RecheckPrev? && Good(m, l) && Chained(m) && l.cur in m.chain && !l.next.marked
    ensures Rank(m, Top(l.(prev := Field(l.cur), cur := l.next.p))) < Rank(m, l)
  {
    var l' := l.(prev := Field(l.cur), cur := l.next.p);
    NextRest(m, l.cur);
    RankAtPrev(m, l);
    assert Good(m, l') <==> GoodNext(m, l);
    if l.next.p != NULL { RankAtNext(m, Top(l')); }
    else if GoodNext(m, l) { DecideGains(m, l', false); }
    else { DecideStale(m, l'); }
  }

  /** A call that decides on what is no longer so starts over soon. */
  lemma DecideStale(m: Mem, l: Local)
    ensures Rank(m, Decide(l, false)) <= Anew(m) + 2
  {
  }

  lemma DecideFoundStale(m: Mem, l: Local)
    ensures Rank(m, Decide(l, true)) <= Anew(m) + 2
  {
  }

  lemma RecheckPrevGains(m: Mem, l: Local)
    requires l.pc.RecheckPrev? && (Good(m, l) ==> Chained(m) && l.cur in m.chain)
    requires l.next.marked ==> GoodNext(m, l)
    ensures Gains(m, l)
  {
    if !Good(m, l) || l.next.marked { RestartGains(m, l); }
    else if KeyOf(m, l.cur) == l.key {
      FoundGains(m, l);
    } else if Less(l.key, KeyOf(m, l.cur)) {
      PassedGains(m, l);
    } else {
      GoesOnGains(m, l);
    }
  }

  lemma PassedGains(m: Mem, l: Local)
    requires l.pc.RecheckPrev? && Good(m, l) && Chained(m) && l.cur in m.chain && !l.next.marked
    ensures Rank(m, Decide(Noted(l, false), false)) < Rank(m, l)
  {
    DecideGains(m, Noted(l, false), false);
    NextRest(m, l.cur);
    RankAtPrev(m, l);
  }

  lemma FoundGains(m: Mem, l: Local)
    requires l.pc.RecheckPrev? && Good(m, l) && Chained(m) && l.cur in m.chain && !l.next.marked
    ensures Rank(m, Decide(l, true)) < Rank(m, l)
  {
    NextRest(m, l.cur);
    RankAtPrev(m, l);
    if GoodNext(m, l) { DecideGains(m, l, true); } else { DecideFoundStale(m, l); }
  }

  lemma RestartGains(m: Mem, l: Local)
    requires l.pc.RecheckPrev? && (!Good(m, l) || (l.next.marked && GoodNext(m, l)))
    ensures Gains(m, l)
  {
  }

  lemma ChangeGains(m: Mem, l: Local)
    requires l.pc.WriteNext? || l.pc.CasAdd? || l.pc.MarkCur? || l.pc.UnlinkMarked?
    requires (l.pc.WriteNext? ==> l.prev != Field(l.node)) && (l.pc.MarkCur? ==> l.prev != Field(l.cur) && l.cur < |m.next|)
    ensures Gains(m, l)
  {
  }

  /** Cutting out cur leaves one node less to meet. */
  lemma UnlinkGains(m: Mem, l: Local)
    requires MemInv(m) && l.pc.Unlink? && (Good(m, l) ==> CanCut(m, l, l.next.p))
    ensures Gains(m, l)
  {
    if Good(m, l) {
      CutRest(m, l);
      CutGains(m, l);
    }
  }

  lemma CutGains(m: Mem, l: Local)
    requires l.pc.Unlink? && Good(m, l) && CanCut(m, l, l.next.p) && |m.status| == |m.next|
    requires Rest(CutOut(m, l, l.next.p), l.next.p) == Rest(m, l.cur) - 1
    ensures Gains(m, l)
  {
    CutStays(m, l);
  }

  lemma CutRest(m: Mem, l: Local)
    requires MemInv(m) && CanCut(m, l, l.next.p)
    ensures var m' := CutOut(m, l, l.next.p); Rest(m', l.next.p) == Rest(m, l.cur) - 1 && l.cur in m.chain
  {
    AtPrev(m, l);
    var i := Slot(m.chain, l.prev);
    assert Removed(m, CutOut(m, l, l.next.p), i) by { CutRemoves(m, l, l.next.p); }
    InvChained(m);
    assert m.chain[i] == l.cur;
    IndexIs(m.chain, i);
    RemovedRest(m.chain, i, l.next.p);
  }

  lemma RemovedRest(s: seq<Ptr>, i: nat, q: Ptr)
    requires i < |s| && q == NodeAt(s, i + 1) && NULL !in s && forall j, k :: 0 <= j < k < |s| ==> s[j] != s[k]
    ensures var s' := RemoveAt(s, i); |s'| - IndexOf(s', q) == |s| - i - 1
  {
    var s' := RemoveAt(s, i);
    RemoveMembers(s, i);
    if i + 1 < |s| {
      assert s'[i] == q;
      IndexIs(s', i);
    }
  }

  lemma IndexIs(s: seq<Ptr>, i: nat)
    requires i < |s| && forall j, k :: 0 <= j < k < |s| ==> s[j] != s[k]
    ensures IndexOf(s, s[i]) == i
  {
    var j := IndexOf(s, s[i]);
    assert s[j] == s[i];
  }

  lemma CutStays(m: Mem, l: Local)
    requires l.pc.Unlink? && Good(m, l) && (l.prev.Field? ==> l.prev.p < |m.next|)
    ensures var (m', l', _) := Step(m, l);
      m' == CutOut(m, l, l.next.p) && Rank(m', l') <= if l.next.p == NULL then 3 else 4 * Rest(m', l.next.p) + 5
  {
    var m', l1 := CutOut(m, l, l.next.p), Store(m, l, l.next.p).1;
    StoreLoads(m, l);
    if l.next.p == NULL { DecideGains(m', Noted(l1.(cur := NULL), false), false); }
    else { RankAtNext(m', l1.(cur := l.next.p, pc := ReadNext)); }
  }

  /** prev holds what has been stored there. */
  lemma StoreLoads(m: Mem, l: Local)
    requires l.prev.Field? ==> l.prev.p < |m.next|
    ensures var l1 := Store(m, l, l.next.p).1;
      && l1 == l.(copy := l1.copy) && Load(CutOut(m, l, l.next.p), l1, l.prev) == Link(l.next.p, false)
  {
  }

  /** Each instruction of a call brings it nearer to its answer, by the call's own count. */
  lemma StepGains(m: Mem, l: Local, t: nat)
    requires MemInv(m) && LInv(m, l, t) && !l.pc.Answer?
    ensures Gains(m, l)
  {
    match l.pc {
      case ReadStart => StartGains(m, l);
      case RecheckStart => StartGains(m, l);
      case ReadNext => ReadNextGains(m, l);
      case RecheckNext => RecheckNextGains(m, l);
      case RecheckPrev =>
        InvChained(m);
        if Good(m, l) { GoodInChain(m, l); }
        RecheckPrevGains(m, l);
      case Unlink => UnlinkGains(m, l);
      case _ => ChangeGains(m, l);
    }
  }
}

/**
 The same for whole runs of the ordered list.
 */
module OrderedListProgress {
  import opened Linearizability
  import opened OrderedList
  import L = ListCore
  import P = ListProof
  import G = ListProgress
  import opened LockFreedom
  import opened Sequences

  function Rank(m: L.Mem, c: Client): nat { if c.Idle? then 0 else G.Rank(m, c.call) }

  /** Thread t takes k steps and nothing else happens. */
  function Alone(t: nat, k: nat): seq<Action> { seq(k, _ => Continue(t)) }

  /** The thread is idle, and what happened last is that its call returned. */
  predicate JustReturned(s: State, t: nat) {
    && t < |s.threads| && s.threads[t].Idle?
    && s.trace != [] && s.trace[|s.trace| - 1].Return? && s.trace[|s.trace| - 1].t == t
  }

  predicate UnderWay(s: State, t: nat) { t < |s.threads| && s.threads[t].Busy? }

  lemma StepTowards(n: nat, sched: seq<Action>, t: nat)
    requires UnderWay(Exec(Init(n), sched), t)
    ensures var s, s' := Exec(Init(n), sched), Exec(Init(n), sched + [Continue(t)]);
      t < |s'.threads| && Rank(s'.mem, s'.threads[t]) < Rank(s.mem, s.threads[t]) && (UnderWay(s', t) || JustReturned(s', t))
  {
    var s := Exec(Init(n), sched);
    RunKeeps(n, sched);
    assert ClientInv(s.mem, s.threads[t], t);
    if !s.threads[t].call.pc.Answer? { G.StepGains(s.mem, s.threads[t].call, t); }
    assert (sched + [Continue(t)])[..|sched|] == sched;
  }

  lemma {:induction false} RunsOut(n: nat, sched: seq<Action>, t: nat, rank: nat) returns (k: nat, whole: seq<Action>)
    requires UnderWay(Exec(Init(n), sched), t) && rank == Rank(Exec(Init(n), sched).mem, Exec(Init(n), sched).threads[t])
    ensures k <= rank && whole == sched + Alone(t, k) && JustReturned(Exec(Init(n), whole), t)
    decreases rank
  {
    var next := sched + [Continue(t)];
    StepTowards(n, sched, t);
    var s' := Exec(Init(n), next);
    if JustReturned(s', t) {
      k, whole := 1, next;
      assert whole == sched + Alone(t, 1);
    } else {
      var l;
      l, whole := RunsOut(n, next, t, Rank(s'.mem, s'.threads[t]));
      k := l + 1;
      assert sched + Alone(t, k) == next + Alone(t, l);
    }
  }

  /** From every reachable state, a call under way that runs alone has answered after at most four instructions for each node
      of the list and 12 more, whatever other calls have left marked or half linked. */
  lemma AloneAnswers(n: nat, sched: seq<Action>, t: nat)
    requires UnderWay(Exec(Init(n), sched), t)
    ensures exists k: nat :: k <= 4 * |Exec(Init(n), sched).mem.chain| + 12 && JustReturned(Exec(Init(n), sched + Alone(t, k)), t)
  {
    var s := Exec(Init(n), sched);
    var k, whole := RunsOut(n, sched, t, Rank(s.mem, s.threads[t]));
    G.RankIsSmall(s.mem, s.threads[t].call);
  }

  // ---------------------------------------------------------------- changes are paid for by calls

  /** An add has yet to link its node; a remove has yet to mark one, which must then be unlinked. */
  function Unpaid(c: Client): nat {
    if c.Idle? || c.call.took || c.call.pc.Answer? then 0
    else match c.call.kind
      case Search => 0
      case Remove => 2
      case _ => 1
  }

  /** The marked nodes that have not been unlinked. */
  ghost function Marked(m: L.Mem): set<L.Ptr> {
    set p | p in m.chain && L.Next(m, p).marked
  }

  ghost function Lag(m: L.Mem): nat { |Marked(m)| }

  lemma InsertLag(m: L.Mem, m': L.Mem, i: nat, p: L.Ptr)
    requires P.Linked(m) && P.Inserted(m, m', i, p)
    ensures Lag(m') == Lag(m)
  {
    P.InsertMembers(m.chain, i, p);
    assert Marked(m') == Marked(m);
  }

  lemma RemoveLag(m: L.Mem, m': L.Mem, i: nat)
    requires P.Linked(m) && G.Chained(m) && P.Removed(m, m', i)
    ensures Lag(m') == Lag(m) - 1
  {
    var x := m.chain[i];
    P.RemoveMembers(m.chain, i);
    forall p: L.Ptr ensures L.Next(m', p).marked == L.Next(m, p).marked { RemoveMarks(m, m', i, p); }
    assert forall p :: p in Marked(m') <==> p in Marked(m) && p != x;
    assert Marked(m') == Marked(m) - {x} && x in Marked(m);
  }

  lemma RemoveMarks(m: L.Mem, m': L.Mem, i: nat, p: L.Ptr)
    requires P.Linked(m) && P.Removed(m, m', i)
    ensures L.Next(m', p).marked == L.Next(m, p).marked
  {
  }

  lemma MarkLag(m: L.Mem, m': L.Mem, p: L.Ptr)
    requires m'.chain == m.chain && forall q :: q != p ==> L.Next(m', q) == L.Next(m, q)
    ensures Lag(m') <= Lag(m) + 1
  {
    Subset(Marked(m'), Marked(m) + {p});
  }

  lemma Subset<T>(a: set<T>, b: set<T>)
    requires a <= b
    ensures |a| <= |b|
  {
    assert b == a + (b - a);
  }

  ghost predicate Pays(m: L.Mem, l: L.Local) {
    var (m', l', _) := L.Step(m, l);
    Lag(m') + Unpaid(Busy(l')) < Lag(m) + Unpaid(Busy(l))
  }

  lemma AddPays(m: L.Mem, l: L.Local, t: nat)
    requires P.MemInv(m) && P.LInv(m, l, t) && l.pc.CasAdd? && G.Good(m, l)
    ensures Pays(m, l)
  {
    P.CasAddInserts(m, l, t);
    P.CasAddThread(m, l, t);
    InsertLag(m, P.LinkIn(m, l), L.Slot(m.chain, l.prev), l.node);
  }

  lemma MarkPays(m: L.Mem, l: L.Local, t: nat)
    requires P.LInv(m, l, t) && l.pc.MarkCur? && G.GoodNext(m, l) && l.cur < |m.next|
    ensures Pays(m, l)
  {
    MarkLag(m, L.Step(m, l).0, l.cur);
  }

  lemma CutPays(m: L.Mem, l: L.Local, t: nat)
    requires P.MemInv(m) && P.LInv(m, l, t) && (l.pc.Unlink? || l.pc.UnlinkMarked?) && G.Good(m, l)
    ensures Pays(m, l)
  {
    P.CutRemoves(m, l, l.next.p);
    G.InvChained(m);
    RemoveLag(m, P.CutOut(m, l, l.next.p), L.Slot(m.chain, l.prev));
    CutStep(m, l);
  }

  lemma CutStep(m: L.Mem, l: L.Local)
    requires (l.pc.Unlink? || l.pc.UnlinkMarked?) && G.Good(m, l)
    ensures var (m', l', _) := L.Step(m, l); m' == P.CutOut(m, l, l.next.p) && Unpaid(Busy(l')) <= Unpaid(Busy(l))
  {
  }

  predicate Changes(m: L.Mem, l: L.Local) {
    if l.pc.MarkCur? then G.GoodNext(m, l) && l.cur < |m.next|
    else G.Good(m, l) && (l.pc.CasAdd? || l.pc.Unlink? || l.pc.UnlinkMarked?)
  }

  /** Nothing changes that another call has read: at most the link of a node that only this thread knows. */
  ghost predicate Unseen(m: L.Mem, m': L.Mem, t: nat) {
    && m'.head == m.head && m'.chain == m.chain && m'.keys == m.keys
    && forall p: L.Ptr :: p >= |m.status| || m.status[p] != L.Private(t) ==> L.Next(m', p) == L.Next(m, p)
  }

  lemma ReadUnseen(m: L.Mem, l: L.Local, t: nat)
    requires P.LInv(m, l, t) && !Changes(m, l) && |m.status| == |m.next|
    ensures var (m', l', _) := L.Step(m, l); Unseen(m, m', t) && Unpaid(Busy(l')) <= Unpaid(Busy(l))
  {
  }

  lemma StepPays(m: L.Mem, l: L.Local, t: nat)
    requires P.MemInv(m) && P.LInv(m, l, t)
    ensures var (m', l', _) := L.Step(m, l);
      if Changes(m, l) then Pays(m, l) else Unseen(m, m', t) && Unpaid(Busy(l')) <= Unpaid(Busy(l))
  {
    if !Changes(m, l) { ReadUnseen(m, l, t); }
    else if l.pc.CasAdd? { AddPays(m, l, t); }
    else if l.pc.MarkCur? { MarkPays(m, l, t); }
    else { CutPays(m, l, t); }
  }

  lemma RankKept(m: L.Mem, m': L.Mem, t: nat, c: Client, u: nat)
    requires P.MemInv(m) && ClientInv(m, c, u) && u != t && Unseen(m, m', t)
    ensures Rank(m', c) == Rank(m, c)
  {
    if c.Busy? && !c.call.pc.Answer? && !c.call.pc.ReadStart? {
      LoadKept(m, m', t, c.call, u);
    }
  }

  lemma LoadKept(m: L.Mem, m': L.Mem, t: nat, l: L.Local, u: nat)
    requires P.MemInv(m) && P.LInv(m, l, u) && u != t && Unseen(m, m', t) && !l.pc.Answer? && !l.pc.ReadStart?
    ensures L.Load(m', l, l.prev) == L.Load(m, l, l.prev) && L.Next(m', l.cur) == L.Next(m, l.cur)
  {
    assert l.cur == L.NULL || P.Published(m, l.cur);
    assert m.status[L.NULL].Nil?;
  }

  lemma LagKept(m: L.Mem, m': L.Mem, t: nat)
    requires P.Linked(m) && Unseen(m, m', t)
    ensures Lag(m') == Lag(m)
  {
    assert Marked(m') == Marked(m);
  }

  // ---------------------------------------------------------------- the potential

  function RanksOf(m: L.Mem, threads: seq<Client>): seq<nat> {
    seq(|threads|, t requires 0 <= t < |threads| => Rank(m, threads[t]))
  }

  function DebtsOf(threads: seq<Client>): seq<nat> {
    seq(|threads|, t requires 0 <= t < |threads| => Unpaid(threads[t]))
  }

  ghost function PotentialOf(s: State, most: nat): nat {
    Potential(RanksOf(s.mem, s.threads), DebtsOf(s.threads), Lag(s.mem), most)
  }

  function NodesBelow(n: nat): (r: set<L.Ptr>)
    ensures |r| == n && forall p: L.Ptr :: p in r <==> p < n
  {
    if n == 0 then {} else NodesBelow(n - 1) + {n - 1}
  }

  /** The list never holds more nodes than were made. */
  lemma ChainFits(m: L.Mem)
    requires P.MemInv(m)
    ensures |m.chain| < |m.keys|
  {
    var all := NodesBelow(|m.keys|) - {L.NULL};
    G.InvChained(m);
    assert Distinct(m.chain);
    forall x | x in m.chain ensures x in all {
      var i := L.IndexOf(m.chain, x);
      assert m.chain[i] == x;
    }
    DistinctFits(m.chain, all);
  }

  lemma RankFits(m: L.Mem, c: Client, calls: nat)
    requires |m.chain| <= calls
    ensures Rank(m, c) <= 4 * calls + 12
  {
    if c.Busy? { G.RankIsSmall(m, c.call); }
  }

  lemma ChangeSpent(m: L.Mem, m': L.Mem, threads: seq<Client>, t: nat, c: Client, calls: nat)
    requires t < |threads| && Lag(m') + Unpaid(c) < Lag(m) + Unpaid(threads[t]) && |m'.chain| <= calls
    ensures Potential(RanksOf(m', threads[t := c]), DebtsOf(threads[t := c]), Lag(m'), 4 * calls + 12)
          < Potential(RanksOf(m, threads), DebtsOf(threads), Lag(m), 4 * calls + 12)
  {
    var threads' := threads[t := c];
    forall u | 0 <= u < |threads'| ensures RanksOf(m', threads')[u] <= 4 * calls + 12 { RankFits(m', threads'[u], calls); }
    ChangeSpends(RanksOf(m, threads), DebtsOf(threads), Lag(m), RanksOf(m', threads'), DebtsOf(threads'), Lag(m'), 4 * calls + 12, t);
  }

  predicate OthersAsBefore(m: L.Mem, m': L.Mem, threads: seq<Client>, t: nat) {
    forall u :: 0 <= u < |threads| && u != t ==> Rank(m', threads[u]) == Rank(m, threads[u])
  }

  lemma QuietSpent(m: L.Mem, m': L.Mem, threads: seq<Client>, t: nat, c: Client, most: nat)
    requires t < |threads| && Lag(m') == Lag(m) && Unpaid(c) <= Unpaid(threads[t])
    requires OthersAsBefore(m, m', threads, t) && Rank(m', c) < Rank(m, threads[t])
    ensures Potential(RanksOf(m', threads[t := c]), DebtsOf(threads[t := c]), Lag(m'), most)
          < Potential(RanksOf(m, threads), DebtsOf(threads), Lag(m), most)
  {
    var threads' := threads[t := c];
    StepSpends(RanksOf(m, threads), DebtsOf(threads), Lag(m), RanksOf(m', threads'), DebtsOf(threads'), Lag(m'), most, t);
  }

  lemma OthersKeepRanks(m: L.Mem, m': L.Mem, threads: seq<Client>, t: nat)
    requires P.MemInv(m) && ClientsInv(m, threads) && Unseen(m, m', t)
    ensures OthersAsBefore(m, m', threads, t) && Lag(m') == Lag(m)
  {
    LagKept(m, m', t);
    forall u | 0 <= u < |threads| && u != t ensures Rank(m', threads[u]) == Rank(m, threads[u]) {
      RankKept(m, m', t, threads[u], u);
    }
  }

  predicate IsCall(s: State, act: Action) { act.Invoke? && act.t < |s.threads| && s.threads[act.t].Idle? }
  predicate IsInstruction(s: State, act: Action) { act.Continue? && act.t < |s.threads| && s.threads[act.t].Busy? }

  lemma ReturnSpends(s: State, t: nat, most: nat)
    requires t < |s.threads| && s.threads[t].Busy? && s.threads[t].call.pc.Answer?
    ensures PotentialOf(Apply(s, Continue(t)), most) < PotentialOf(s, most)
  {
    QuietSpent(s.mem, s.mem, s.threads, t, Idle, most);
  }

  lemma ChangeStepSpends(m: L.Mem, threads: seq<Client>, t: nat, calls: nat)
    requires P.MemInv(m) && t < |threads| && ClientInv(m, threads[t], t) && threads[t].Busy? && Changes(m, threads[t].call)
    requires |L.Step(m, threads[t].call).0.chain| <= calls
    ensures var (m', l', _) := L.Step(m, threads[t].call);
      Potential(RanksOf(m', threads[t := Busy(l')]), DebtsOf(threads[t := Busy(l')]), Lag(m'), 4 * calls + 12)
      < Potential(RanksOf(m, threads), DebtsOf(threads), Lag(m), 4 * calls + 12)
  {
    var (m', l', _) := L.Step(m, threads[t].call);
    StepPays(m, threads[t].call, t);
    ChangeSpent(m, m', threads, t, Busy(l'), calls);
  }

  lemma QuietStepSpends(m: L.Mem, threads: seq<Client>, t: nat, most: nat)
    requires P.MemInv(m) && ClientsInv(m, threads) && t < |threads| && threads[t].Busy?
    requires !Changes(m, threads[t].call) && !threads[t].call.pc.Answer?
    ensures var (m', l', _) := L.Step(m, threads[t].call);
      Potential(RanksOf(m', threads[t := Busy(l')]), DebtsOf(threads[t := Busy(l')]), Lag(m'), most)
      < Potential(RanksOf(m, threads), DebtsOf(threads), Lag(m), most)
  {
    var (m', l', _) := L.Step(m, threads[t].call);
    assert ClientInv(m, threads[t], t);
    StepPays(m, threads[t].call, t);
    G.StepGains(m, threads[t].call, t);
    OthersKeepRanks(m, m', threads, t);
    QuietSpent(m, m', threads, t, Busy(l'), most);
  }

  lemma ApplyIs(s: State, t: nat)
    requires t < |s.threads| && s.threads[t].Busy? && !s.threads[t].call.pc.Answer?
    ensures var s', (m', l', _) := Apply(s, Continue(t)), L.Step(s.mem, s.threads[t].call);
      s'.mem == m' && s'.threads == s.threads[t := Busy(l')]
  {
  }

  /** An instruction lowers the potential. */
  lemma ContinueSpends(s: State, t: nat, calls: nat)
    requires P.MemInv(s.mem) && ClientsInv(s.mem, s.threads) && t < |s.threads| && s.threads[t].Busy?
    requires !s.threads[t].call.pc.Answer? && |Apply(s, Continue(t)).mem.chain| <= calls
    ensures PotentialOf(Apply(s, Continue(t)), 4 * calls + 12) < PotentialOf(s, 4 * calls + 12)
  {
    ApplyIs(s, t);
    assert ClientInv(s.mem, s.threads[t], t);
    if Changes(s.mem, s.threads[t].call) { ChangeStepSpends(s.mem, s.threads, t, calls); }
    else { QuietStepSpends(s.mem, s.threads, t, 4 * calls + 12); }
  }

  /** What a new call may cost in a run of so many calls. */
  function Cost(n: nat, calls: nat): nat { 4 * calls + 12 + 2 * Price(n, 4 * calls + 12) }

  lemma EnterBuys(m: L.Mem, m': L.Mem, threads: seq<Client>, t: nat, c: Client, calls: nat)
    requires t < |threads| && threads[t].Idle? && OthersAsBefore(m, m', threads, t) && Lag(m') == Lag(m)
    requires |m'.chain| <= calls && Unpaid(c) <= 2
    ensures Potential(RanksOf(m', threads[t := c]), DebtsOf(threads[t := c]), Lag(m'), 4 * calls + 12)
         <= Potential(RanksOf(m, threads), DebtsOf(threads), Lag(m), 4 * calls + 12) + Cost(|threads|, calls)
  {
    var threads', most := threads[t := c], 4 * calls + 12;
    RankFits(m', c, calls);
    CallBuys(RanksOf(m, threads), DebtsOf(threads), Lag(m), RanksOf(m', threads'), DebtsOf(threads'), most, t);
    Times(Price(|threads|, most), Unpaid(c), 2);
  }

  lemma EnterUnseen(m: L.Mem, kind: L.Kind, key: L.Key, t: nat)
    requires P.MemInv(m)
    ensures Unseen(m, L.Enter(m, kind, key, L.Head, L.NULL, t).0.(keys := m.keys), t)
  {
  }

  /** The keys play no part. */
  lemma KeysIrrelevant(m: L.Mem, m': L.Mem, c: Client)
    requires m' == m.(keys := m'.keys)
    ensures Rank(m', c) == Rank(m, c) && Lag(m') == Lag(m)
  {
    assert Marked(m') == Marked(m);
  }

  lemma InvokeBuys(s: State, t: nat, op: Op, calls: nat)
    requires Inv(s) && t < |s.threads| && s.threads[t].Idle? && |s.mem.chain| <= calls
    ensures PotentialOf(Apply(s, Invoke(t, op)), 4 * calls + 12) <= PotentialOf(s, 4 * calls + 12) + Cost(|s.threads|, calls)
  {
    var m := s.mem;
    var (m', l) := L.Enter(m, op.kind, op.key, L.Head, L.NULL, t);
    var m1 := m'.(keys := m.keys);
    EnterUnseen(m, op.kind, op.key, t);
    OthersKeepRanks(m, m1, s.threads, t);
    forall u | 0 <= u < |s.threads| && u != t ensures Rank(m', s.threads[u]) == Rank(m, s.threads[u]) {
      KeysIrrelevant(m1, m', s.threads[u]);
    }
    KeysIrrelevant(m1, m', Idle);
    EnterBuys(m, m', s.threads, t, Busy(l), calls);
  }

  // ---------------------------------------------------------------- whole runs

  /** The actions of a run that call an operation, and those that execute an instruction. */
  function Calls(n: nat, sched: seq<Action>): nat {
    if sched == [] then 0
    else
      var before, last := sched[..|sched| - 1], sched[|sched| - 1];
      Calls(n, before) + if IsCall(Exec(Init(n), before), last) then 1 else 0
  }

  function Instructions(n: nat, sched: seq<Action>): nat {
    if sched == [] then 0
    else
      var before, last := sched[..|sched| - 1], sched[|sched| - 1];
      Instructions(n, before) + if IsInstruction(Exec(Init(n), before), last) then 1 else 0
  }

  lemma {:induction false} SameThreads(n: nat, sched: seq<Action>)
    ensures |Exec(Init(n), sched).threads| == n
  {
    if sched != [] { SameThreads(n, sched[..|sched| - 1]); }
  }

  lemma StepSameKeys(m: L.Mem, l: L.Local)
    ensures L.Step(m, l).0.keys == m.keys
  {
  }

  lemma ApplyKeys(s: State, act: Action)
    ensures |Apply(s, act).mem.keys| <= |s.mem.keys| + if IsCall(s, act) then 1 else 0
  {
    if IsInstruction(s, act) && !s.threads[act.t].call.pc.Answer? { StepSameKeys(s.mem, s.threads[act.t].call); }
  }

  lemma {:induction false} NodesAreCalls(n: nat, sched: seq<Action>)
    ensures |Exec(Init(n), sched).mem.keys| <= 1 + Calls(n, sched) && |Exec(Init(n), sched).mem.chain| <= Calls(n, sched)
  {
    if sched != [] {
      var before := sched[..|sched| - 1];
      NodesAreCalls(n, before);
      ApplyKeys(Exec(Init(n), before), sched[|sched| - 1]);
    }
    RunKeeps(n, sched);
    ChainFits(Exec(Init(n), sched).mem);
  }

  lemma ActionSpends(s: State, act: Action, calls: nat)
    requires Inv(s) && |s.mem.chain| <= calls && |Apply(s, act).mem.chain| <= calls
    ensures var most := 4 * calls + 12;
      (if IsInstruction(s, act) then 1 else 0) + PotentialOf(Apply(s, act), most)
      <= PotentialOf(s, most) + if IsCall(s, act) then Cost(|s.threads|, calls) else 0
  {
    if IsInstruction(s, act) {
      if s.threads[act.t].call.pc.Answer? { ReturnSpends(s, act.t, 4 * calls + 12); } else { ContinueSpends(s, act.t, calls); }
    }
    if IsCall(s, act) { InvokeBuys(s, act.t, act.op, calls); }
  }

  lemma {:induction false} Spent(n: nat, sched: seq<Action>, calls: nat)
    requires Calls(n, sched) <= calls
    ensures Instructions(n, sched) + PotentialOf(Exec(Init(n), sched), 4 * calls + 12) <= Cost(n, calls) * Calls(n, sched)
  {
    if sched == [] {
      SumZero(RanksOf(Init(n).mem, Init(n).threads));
      SumZero(DebtsOf(Init(n).threads));
      assert Marked(Init(n).mem) == {};
    } else {
      var before, last := sched[..|sched| - 1], sched[|sched| - 1];
      Tally(n, before, last, sched, calls);
      Spent(n, before, calls);
      Distribute(Cost(n, calls), Calls(n, before), 1);
    }
  }

  lemma Tally(n: nat, before: seq<Action>, last: Action, sched: seq<Action>, calls: nat)
    requires sched != [] && before == sched[..|sched| - 1] && last == sched[|sched| - 1] && Calls(n, sched) <= calls
    ensures var s, s', most := Exec(Init(n), before), Exec(Init(n), sched), 4 * calls + 12;
      && Calls(n, before) <= Calls(n, sched) <= Calls(n, before) + 1
      && Instructions(n, sched) + PotentialOf(s', most)
         <= Instructions(n, before) + PotentialOf(s, most) + if Calls(n, sched) == Calls(n, before) then 0 else Cost(n, calls)
  {
    RunKeeps(n, before);
    SameThreads(n, before);
    NodesAreCalls(n, before);
    NodesAreCalls(n, sched);
    ActionSpends(Exec(Init(n), before), last, calls);
  }

  /** The list is lock-free: in a run of n threads with c calls there are at most ((4 c + 12) (2 n + 1) + 2) c instructions,
      with walks of the list, failed attempts and help for others included. */
  lemma ListIsLockFree(n: nat, sched: seq<Action>)
    ensures var c := Calls(n, sched); Instructions(n, sched) <= ((4 * c + 12) * (2 * n + 1) + 2) * c
  {
    var c := Calls(n, sched);
    Spent(n, sched, c);
    CostIs(n, c);
  }

  lemma CostIs(n: nat, c: nat)
    ensures Cost(n, c) == (4 * c + 12) * (2 * n + 1) + 2
  {
  }
}
