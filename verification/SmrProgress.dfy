/**
 That the calls of the stack with hazard pointers answer: a call that runs on its own, be it one that first has to find or
 make a record, or one that scans, answers within a number of instructions that the number of records bounds.
 */
module SmrProgress {
  import opened Linearizability
  import opened StackSpecs
  import opened Smr
  import opened SmrProof
  import opened SmrGarbage

  // ---------------------------------------------------------------- how far a call is from its answer

  /** From the start of a call whose thread has a record, with these many records and nodes to be looked at by a scan. */
  function Begin(op: Op, work: nat): nat {
    match op
    case Push(_) => 5
    case Pop => work + 14
    case Peek => 6
  }

  /** The same, whichever record the thread gets. */
  function Any(hpCount: nat): nat { hpCount + Limit(hpCount) + 15 }

  function Work(m: Mem, th: Local): nat { |m.order| + |R(m, th.rec).rlist| }

  function RegisterRank(m: Mem, th: Local): nat {
    match th.pc
    case FindRec => Any(m.hpCount + 1) + 10 + 2 * |m.order|
    case WalkRec => Any(m.hpCount + 1) + 9 + 2 * th.ci
    case ClaimRec => Any(m.hpCount + 1) + 8 + 2 * th.ci
    case CountRec => Any(m.hpCount + 1) + 8
    case ChkCount => Any(m.hpCount) + 7
    case ReadCount => Any(m.hpCount) + 6
    case StoreRH => Any(m.hpCount) + 5
    case NewRec => Any(m.hpCount) + 4
    case LinkRec => Any(m.hpCount) + 3
    case SizeRec => Any(m.hpCount) + if m.head == th.cur then 2 else 5
    case PushRec => Any(m.hpCount) + if m.head == th.cur then 1 else 4
    case _ => 0
  }

  function StackRank(m: Mem, th: Local): nat {
    var w := Work(m, th);
    var current := m.top == th.oldTop;
    match th.pc
    case NewNode => 5
    case ReadTop => 4
    case WriteNext => if current then 3 else 6
    case CasPush => if current then 2 else 5
    case PopRead => w + 14
    case PopGuard => if current then w + 13 else w + 16
    case PopCheck => if current then w + 12 else w + 15
    case PopNext => if current then w + 11 else w + 16
    case CasPop => if current then w + 10 else w + 15
    case PopClear => w + 9
    case PopData => w + 8
    case PeekRead => 6
    case PeekGuard => if current then 5 else 8
    case PeekCheck => if current then 4 else 7
    case PeekData => 3
    case PeekClear => 2
    case ExitClean => 3
    case ExitClear => 2
    case Idle => 0
    case _ => 1
  }

  function ScanRank(m: Mem, th: Local): nat {
    match th.pc
    case Retire => Work(m, th) + 7
    case ChkRH => Work(m, th) + 5
    case ScanHead => Work(m, th) + 4
    case ScanSlot => th.ci + |R(m, th.rec).rlist| + 3
    case ScanFree => |R(m, th.rec).rlist| + 2
    case _ => 0
  }

  /** At most this many instructions remain, if nobody else runs. */
  function Rank(m: Mem, th: Local): nat {
    if Registering(th) then RegisterRank(m, th)
    else if th.pc.Retire? || Deciding(th.pc) then ScanRank(m, th)
    else StackRank(m, th)
  }

  /** There are no more records than were counted. */
  predicate RecordsCounted(m: Mem, th: Local) {
    |m.order| <= m.hpCount && (Counted(th) ==> |m.order| < m.hpCount)
  }

  lemma LimitGrows(h: nat)
    ensures Limit(h) <= Limit(h + 1) <= 2 * h + 18 && Any(h) <= Any(h + 1)
  {
  }

  /** The part of a thread's invariant that counts here. */
  predicate Positions(m: Mem, th: Local) {
    && (th.pc.WalkRec? || th.pc.ScanSlot? ==> (th.cur == NULL <==> th.ci == 0)) && (th.pc.ClaimRec? ==> th.ci > 0)
    && (th.pc.PushRec? ==> R(m, th.rec).rlist == [])
    && (th.pc.ClaimRec? ==> |R(m, th.cur).rlist| <= Limit(m.hpCount) + 1)
  }

  lemma ThreadPositions(m: Mem, th: Local, t: nat)
    requires MemInv(m) && ThreadInv(m, th, t) && MemBounded(m)
    ensures Positions(m, th)
  {
    if (th.pc.WalkRec? || th.pc.ScanSlot? || th.pc.ClaimRec?) && th.ci > 0 { assert m.order[th.ci - 1] != NULL; }
    if th.pc.ClaimRec? { assert RecBounded(m.recs[th.cur], th.cur in m.order, m.hpCount); }
  }

  lemma WalkGains(m: Mem, th: Local, t: nat, addr: Ptr)
    requires Smr.Sized(m) && Positions(m, th) && RecordsCounted(m, th)
    requires th.pc.FindRec? || th.pc.WalkRec? || th.pc.ClaimRec? || th.pc.CountRec?
    ensures var (m', th', _) := Step(m, th, t, addr); Rank(m', th') < Rank(m, th)
  {
    LimitGrows(m.hpCount);
  }

  lemma RegisterGains(m: Mem, th: Local, t: nat, addr: Ptr)
    requires Smr.Sized(m) && Positions(m, th) && RecordsCounted(m, th) && Counted(th)
    ensures var (m', th', _) := Step(m, th, t, addr); Rank(m', th') < Rank(m, th)
  {
  }

  lemma RetireGains(m: Mem, th: Local, t: nat, addr: Ptr)
    requires Smr.Sized(m) && (th.pc.Retire? || th.pc.ChkRH? || th.pc.ScanHead?)
    ensures var (m', th', _) := Step(m, th, t, addr); Rank(m', th') < Rank(m, th)
  {
  }

  lemma ScanGains(m: Mem, th: Local, t: nat, addr: Ptr)
    requires Smr.Sized(m) && Positions(m, th) && (th.pc.ScanSlot? || th.pc.ScanFree?)
    ensures var (m', th', _) := Step(m, th, t, addr); Rank(m', th') < Rank(m, th)
  {
  }

  predicate OfPop(pc: PC) {
    pc.PopRead? || pc.PopGuard? || pc.PopCheck? || pc.PopNext? || pc.CasPop? || pc.PopClear? || pc.PopData?
  }

  lemma GuardGains(m: Mem, th: Local, t: nat, addr: Ptr)
    requires Smr.Sized(m) && (th.pc.PopRead? || th.pc.PopGuard? || th.pc.PopCheck?)
    ensures var (m', th', _) := Step(m, th, t, addr); Rank(m', th') < Rank(m, th)
  {
  }

  lemma TakeGains(m: Mem, th: Local, t: nat, addr: Ptr)
    requires Smr.Sized(m) && (th.pc.PopNext? || th.pc.CasPop? || th.pc.PopClear? || th.pc.PopData?)
    ensures var (m', th', _) := Step(m, th, t, addr); Rank(m', th') < Rank(m, th)
  {
  }

  lemma PopGains(m: Mem, th: Local, t: nat, addr: Ptr)
    requires Smr.Sized(m) && OfPop(th.pc)
    ensures var (m', th', _) := Step(m, th, t, addr); Rank(m', th') < Rank(m, th)
  {
    if th.pc.PopRead? || th.pc.PopGuard? || th.pc.PopCheck? { GuardGains(m, th, t, addr); } else { TakeGains(m, th, t, addr); }
  }

  predicate OfPush(pc: PC) { pc.NewNode? || pc.ReadTop? || pc.WriteNext? || pc.CasPush? }

  lemma PushGains(m: Mem, th: Local, t: nat, addr: Ptr)
    requires Smr.Sized(m) && OfPush(th.pc)
    ensures var (m', th', _) := Step(m, th, t, addr); Rank(m', th') < Rank(m, th)
  {
  }

  lemma OtherGains(m: Mem, th: Local, t: nat, addr: Ptr)
    requires Smr.Sized(m) && !Registering(th) && !th.pc.Retire? && !Deciding(th.pc) && !OfPop(th.pc) && !OfPush(th.pc) && !th.pc.Idle?
    ensures var (m', th', _) := Step(m, th, t, addr); Rank(m', th') < Rank(m, th)
  {
  }

  /** Each instruction of a thread brings it nearer to its answer, by the thread's own count. */
  lemma StepGains(m: Mem, th: Local, t: nat, addr: Ptr)
    requires Smr.Sized(m) && Positions(m, th) && RecordsCounted(m, th) && !th.pc.Idle?
    ensures var (m', th', _) := Step(m, th, t, addr); Rank(m', th') < Rank(m, th)
  {
    if Counted(th) { RegisterGains(m, th, t, addr); }
    else if Registering(th) { WalkGains(m, th, t, addr); }
    else if th.pc.Retire? || th.pc.ChkRH? || th.pc.ScanHead? { RetireGains(m, th, t, addr); }
    else if Deciding(th.pc) { ScanGains(m, th, t, addr); }
    else if OfPop(th.pc) { PopGains(m, th, t, addr); }
    else if OfPush(th.pc) { PushGains(m, th, t, addr); }
    else { OtherGains(m, th, t, addr); }
  }

  // ---------------------------------------------------------------- a call that runs on its own

  /** Thread t takes k steps and nothing else happens; the heap chooses its addresses as it likes. */
  function Alone(t: nat, addr: nat -> Ptr, k: nat): seq<Action> { seq(k, i requires 0 <= i < k => Continue(t, addr(i))) }

  /** The thread is idle, and what happened last is that its call returned. */
  predicate JustReturned(s: State, t: nat) {
    && t < |s.threads| && s.threads[t].pc.Idle?
    && s.trace != [] && s.trace[|s.trace| - 1].Return? && s.trace[|s.trace| - 1].t == t
  }

  predicate Leaving(pc: PC) { pc.ExitClean? || pc.ExitClear? || pc.ExitRelease? }

  /** The thread is in a call. */
  predicate UnderWay(s: State, t: nat) { t < |s.threads| && !s.threads[t].pc.Idle? && !Leaving(s.threads[t].pc) }

  lemma OnlyReturnsIdle(m: Mem, th: Local, t: nat, addr: Ptr)
    requires Smr.Sized(m) && !th.pc.Idle? && !Leaving(th.pc)
    ensures var (_, th', es) := Step(m, th, t, addr);
      !Leaving(th'.pc) && (th'.pc.Idle? ==> |es| == 1 && es[0].Return? && es[0].t == t)
  {
  }

  /** What the invariants say about one thread, as far as it counts here. */
  lemma ReachedPositions(n: nat, sched: seq<Action>, t: nat)
    requires t < |Exec(Init(n), sched).threads|
    ensures var s := Exec(Init(n), sched);
      Smr.Sized(s.mem) && Positions(s.mem, s.threads[t]) && RecordsCounted(s.mem, s.threads[t]) && |s.mem.order| <= s.mem.hpCount
  {
    RunBounds(n, sched);
    var s := Exec(Init(n), sched);
    ThreadPositions(s.mem, s.threads[t], t);
  }

  lemma StepTowards(n: nat, sched: seq<Action>, t: nat, addr: Ptr)
    requires UnderWay(Exec(Init(n), sched), t)
    ensures var s, s' := Exec(Init(n), sched), Exec(Init(n), sched + [Continue(t, addr)]);
      t < |s'.threads| && Rank(s'.mem, s'.threads[t]) < Rank(s.mem, s.threads[t]) && (UnderWay(s', t) || JustReturned(s', t))
  {
    var s := Exec(Init(n), sched);
    ReachedPositions(n, sched, t);
    StepGains(s.mem, s.threads[t], t, addr);
    OnlyReturnsIdle(s.mem, s.threads[t], t, addr);
    assert (sched + [Continue(t, addr)])[..|sched|] == sched;
  }

  function Later(addr: nat -> Ptr): nat -> Ptr { i => addr(i + 1) }

  lemma AloneFirst(sched: seq<Action>, t: nat, addr: nat -> Ptr, l: nat)
    ensures sched + Alone(t, addr, l + 1) == sched + [Continue(t, addr(0))] + Alone(t, Later(addr), l)
    ensures l == 0 ==> sched + Alone(t, addr, l + 1) == sched + [Continue(t, addr(0))]
  {
  }

  function RankAt(n: nat, sched: seq<Action>, t: nat): nat
    requires t < |Exec(Init(n), sched).threads|
  {
    Rank(Exec(Init(n), sched).mem, Exec(Init(n), sched).threads[t])
  }

  predicate Going(n: nat, sched: seq<Action>, t: nat) { UnderWay(Exec(Init(n), sched), t) }
  predicate Returned(n: nat, sched: seq<Action>, t: nat) { JustReturned(Exec(Init(n), sched), t) }

  lemma NextRank(n: nat, sched: seq<Action>, t: nat, addr: Ptr)
    requires Going(n, sched, t)
    ensures var next := sched + [Continue(t, addr)];
      Returned(n, next, t) || (Going(n, next, t) && RankAt(n, next, t) < RankAt(n, sched, t))
    ensures RankAt(n, sched, t) > 0
  {
    StepTowards(n, sched, t, addr);
  }

  lemma {:induction false} RunsOut(n: nat, sched: seq<Action>, t: nat, addr: nat -> Ptr, rank: nat) returns (k: nat, whole: seq<Action>)
    requires Going(n, sched, t) && rank == RankAt(n, sched, t)
    ensures k <= rank && whole == sched + Alone(t, addr, k) && Returned(n, whole, t)
    decreases rank
  {
    NextRank(n, sched, t, addr(0));
    AloneFirst(sched, t, addr, 0);
    var next := sched + [Continue(t, addr(0))];
    if Returned(n, next, t) {
      k, whole := 1, next;
    } else {
      var l;
      l, whole := RunsOut(n, next, t, Later(addr), RankAt(n, next, t));
      k := l + 1;
      AloneFirst(sched, t, addr, l);
    }
  }

  lemma RankIsSmall(m: Mem, th: Local, t: nat)
    requires MemInv(m) && ThreadInv(m, th, t) && MemBounded(m) && RecordsCounted(m, th)
    ensures Rank(m, th) <= 5 * m.hpCount + 46
  {
    LimitGrows(m.hpCount);
    assert R(m, th.rec) == NoRec || RecBounded(m.recs[th.rec], th.rec in m.order, m.hpCount);
  }

  /** From every reachable state, a call under way that runs alone has answered after a number of instructions that is linear
      in the number of records, whatever addresses the heap hands out. */
  lemma AloneAnswers(n: nat, sched: seq<Action>, t: nat, addr: nat -> Ptr)
    requires UnderWay(Exec(Init(n), sched), t)
    ensures exists k: nat ::
      k <= 5 * Exec(Init(n), sched).mem.hpCount + 46 && JustReturned(Exec(Init(n), sched + Alone(t, addr, k)), t)
  {
    var k, whole := RunsOut(n, sched, t, addr, RankAt(n, sched, t));
    assert JustReturned(Exec(Init(n), whole), t);
    RunBounds(n, sched);
    ReachedPositions(n, sched, t);
    RankIsSmall(Exec(Init(n), sched).mem, Exec(Init(n), sched).threads[t], t);
  }

  // ---------------------------------------------------------------- records are used again

  /** One of the oldest j records belongs to nobody. */
  predicate Spare(m: Mem, j: nat) {
    exists i :: 0 <= i < j && i < |m.order| && !R(m, m.order[i]).active
  }

  /** The thread looks for a record, and has not gone past a spare one. */
  predicate Looking(m: Mem, th: Local) {
    || (th.pc.FindRec? && Spare(m, |m.order|))
    || ((th.pc.WalkRec? || th.pc.ClaimRec?) && Spare(m, th.ci))
  }

  function ToClaim(m: Mem, th: Local): nat {
    if th.pc.FindRec? then 2 * |m.order| + 2 else if th.pc.WalkRec? then 2 * th.ci + 1 else 2 * th.ci
  }

  /** The thread has got one of the records that there were. */
  predicate Claimed(m: Mem, m': Mem, th': Local) {
    m'.hpCount == m.hpCount && m'.order == m.order && th'.rec in m.order
  }

  /** Where a walk stands. */
  predicate Walking(m: Mem, th: Local) {
    && (th.pc.WalkRec? || th.pc.ClaimRec? ==> th.ci <= |m.order| && th.cur == Last(m.order, th.ci))
    && forall i :: 0 <= i < |m.order| ==> 0 < m.order[i] < |m.recs|
  }

  lemma LookingStep(m: Mem, th: Local, t: nat, addr: Ptr)
    requires Smr.Sized(m) && Walking(m, th) && Looking(m, th)
    ensures var (m', th', _) := Step(m, th, t, addr);
      Claimed(m, m', th') || (m' == m && Looking(m, th') && ToClaim(m, th') < ToClaim(m, th))
  {
    if !th.pc.FindRec? {
      var i :| 0 <= i < th.ci && i < |m.order| && !R(m, m.order[i]).active;
      assert th.cur == m.order[th.ci - 1];
      if R(m, th.cur).active { assert i < th.ci - 1; }
    }
  }

  lemma NextLooking(n: nat, sched: seq<Action>, t: nat, addr: Ptr)
    requires var s := Exec(Init(n), sched); t < |s.threads| && Looking(s.mem, s.threads[t])
    ensures var s, s' := Exec(Init(n), sched), Exec(Init(n), sched + [Continue(t, addr)]);
      && t < |s'.threads|
      && (Claimed(s.mem, s'.mem, s'.threads[t])
          || (s'.mem == s.mem && Looking(s.mem, s'.threads[t]) && ToClaim(s.mem, s'.threads[t]) < ToClaim(s.mem, s.threads[t])))
  {
    var s := Exec(Init(n), sched);
    RunKeeps(n, sched);
    LookingStep(s.mem, s.threads[t], t, addr);
    assert (sched + [Continue(t, addr)])[..|sched|] == sched;
  }

  lemma {:induction false} ClaimsSpare(n: nat, sched: seq<Action>, t: nat, addr: nat -> Ptr, m: Mem, th: Local)
    returns (k: nat, whole: seq<Action>)
    requires var s := Exec(Init(n), sched); t < |s.threads| && m == s.mem && th == s.threads[t] && Looking(m, th)
    ensures k <= ToClaim(m, th) && whole == sched + Alone(t, addr, k)
    ensures var s' := Exec(Init(n), whole); t < |s'.threads| && Claimed(m, s'.mem, s'.threads[t])
    decreases ToClaim(m, th)
  {
    NextLooking(n, sched, t, addr(0));
    AloneFirst(sched, t, addr, 0);
    var next := sched + [Continue(t, addr(0))];
    var s' := Exec(Init(n), next);
    if Claimed(m, s'.mem, s'.threads[t]) {
      k, whole := 1, next;
      ToClaimPositive(m, th);
    } else {
      var l;
      l, whole := ClaimsSpare(n, next, t, Later(addr), m, s'.threads[t]);
      k := l + 1;
      AloneFirst(sched, t, addr, l);
    }
  }

  lemma ToClaimPositive(m: Mem, th: Local)
    requires Looking(m, th)
    ensures ToClaim(m, th) > 0
  {
  }

  /** A thread that needs a record while one belongs to nobody, running alone, takes one that is there instead of making one. */
  lemma RecordsAreReused(n: nat, sched: seq<Action>, t: nat, addr: nat -> Ptr)
    requires var s := Exec(Init(n), sched); t < |s.threads| && s.threads[t].pc.FindRec? && Spare(s.mem, |s.mem.order|)
    ensures exists k: nat :: ClaimedBy(n, sched, t, addr, k)
  {
    var s := Exec(Init(n), sched);
    var k, whole := ClaimsSpare(n, sched, t, addr, s.mem, s.threads[t]);
    assert ClaimedBy(n, sched, t, addr, k);
  }

  predicate ClaimedBy(n: nat, sched: seq<Action>, t: nat, addr: nat -> Ptr, k: nat) {
    var s, s' := Exec(Init(n), sched), Exec(Init(n), sched + Alone(t, addr, k));
    k <= 2 * |s.mem.order| + 2 && t < |s'.threads| && Claimed(s.mem, s'.mem, s'.threads[t])
  }
}
