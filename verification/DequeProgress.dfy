/**
 That the deque is lock-free.  An attempt of a thread fails only if the anchor has changed since the thread copied it, so
 a call that runs on its own answers within a fixed number of instructions, from wherever it is and whatever stalled
 operations have left behind; and in every run, the number of instructions is bounded by the number of calls.
 */
module DequeProgress {
  import opened Linearizability
  import opened DequeSpecs
  import opened Deque
  import opened DequeProof
  import opened LockFreedom

  /** A failed attempt means that the anchor is not the one that was copied. */
  lemma RetryMeansChange(m: Mem, th: Local, t: nat)
    requires th.Busy? && !th.pc.Snap? && !InStabilise(th.pc) && m.anchor == th.a
    ensures var th' := Step(m, th, t).1; th'.Busy? ==> !th'.pc.Snap?
  {
  }

  // ---------------------------------------------------------------- how far a call is from its answer

  /** Instructions of stabilize from here to its end. */
  function ToStable(pc: PC): nat {
    match pc
    case StL => 10
    case StR => 9
    case StA => 8
    case StPrev => 7
    case StEnd => 6
    case StA2 => 5
    case StNbr => 4
    case StA3 => 3
    case StFix => 2
    case StDone => 1
    case _ => 0
  }

  /** Instructions from an attempt with a good copy of the anchor to the answer. */
  function ToAnswer(pc: PC): nat {
    match pc
    case Link => 13
    case CasPush => 12
    case ChkL => 7
    case ChkR => 6
    case ChkA => 5
    case ReadPrev => 4
    case ChkAgain => 3
    case ChkOne => 3
    case CasPop => 2
    case CasOne => 2
    case CasEmpty => 2
    case Crash => 0
    case _ => 1
  }

  const FromStable := 14
  const FromUnstable := 25

  /** From a new attempt to the answer. */
  function Anew(m: Mem): nat { if m.anchor.st.Stable? then FromStable else FromUnstable }

  /** The copy of the anchor is good, and so is the copy of the link that is about to be replaced. */
  predicate Current(m: Mem, th: Local)
    requires th.Busy?
  {
    m.anchor == th.a && (th.pc.StA3? || th.pc.StFix? ==> Outward(m, PushSide(th.a.st), th.prev) == th.nbr)
  }

  /** At most this many instructions remain, if nobody else runs. */
  function Rank(m: Mem, th: Local): nat {
    if th.Idle? then 0
    else if th.pc.Snap? then Anew(m)
    else if InStabilise(th.pc) then
      if th.pushed then ToStable(th.pc) + 1
      else if Current(m, th) then ToStable(th.pc) + FromStable
      else ToStable(th.pc) + Anew(m)
    else if Current(m, th) || ToAnswer(th.pc) <= 1 then ToAnswer(th.pc)
    else ToAnswer(th.pc) - 1 + Anew(m)
  }

  const Most := 38

  lemma RankIsSmall(m: Mem, th: Local)
    ensures Rank(m, th) <= Most
    ensures th.Busy? && !th.pc.Crash? ==> Rank(m, th) > 0
  {
  }

  /** Each instruction of a thread brings it nearer to its answer, by the thread's own count. */
  lemma StepGains(m: Mem, th: Local, t: nat)
    requires MemInv(m) && ThreadInv(m, th) && th.Busy?
    ensures var (m', th', _) := Step(m, th, t); Rank(m', th') < Rank(m, th)
  {
    StepKeeps(m, th, t);
    if th.pc.Snap? { SnapGains(m, th, t); }
    else if InStabilise(th.pc) { StabiliseGains(m, th, t); }
    else { AttemptGains(m, th, t); }
  }

  lemma SnapGains(m: Mem, th: Local, t: nat)
    requires th.Busy? && th.pc.Snap? && !th.pushed && !Step(m, th, t).1.pc.Crash?
    ensures var (m', th', _) := Step(m, th, t); Rank(m', th') < Rank(m, th)
  {
  }

  lemma AttemptGains(m: Mem, th: Local, t: nat)
    requires th.Busy? && !th.pc.Snap? && !InStabilise(th.pc) && !th.pc.Crash?
    ensures var (m', th', _) := Step(m, th, t); Rank(m', th') < Rank(m, th)
  {
  }

  lemma StabiliseGains(m: Mem, th: Local, t: nat)
    requires th.Busy? && InStabilise(th.pc)
    ensures var (m', th', _) := Step(m, th, t); Rank(m', th') < Rank(m, th)
  {
    if ToStable(th.pc) > 4 { FirstChecksGain(m, th, t); } else { LastStepsGain(m, th, t); }
  }

  lemma FirstChecksGain(m: Mem, th: Local, t: nat)
    requires th.Busy? && InStabilise(th.pc) && ToStable(th.pc) > 4
    ensures var (m', th', _) := Step(m, th, t); Rank(m', th') < Rank(m, th)
  {
  }

  lemma LastStepsGain(m: Mem, th: Local, t: nat)
    requires th.Busy? && InStabilise(th.pc) && ToStable(th.pc) <= 4
    ensures var (m', th', _) := Step(m, th, t); Rank(m', th') < Rank(m, th)
  {
  }

  // ---------------------------------------------------------------- a call that runs on its own

  /** Thread t takes k steps and nothing else happens. */
  function Alone(t: nat, k: nat): seq<Action> { seq(k, _ => Continue(t)) }

  /** The thread is idle, and what happened last is that its call returned. */
  predicate JustReturned(s: State, t: nat) {
    && t < |s.threads| && s.threads[t].Idle?
    && s.trace != [] && s.trace[|s.trace| - 1].Return? && s.trace[|s.trace| - 1].t == t
  }

  predicate UnderWay(s: State, t: nat) { t < |s.threads| && s.threads[t].Busy? }

  lemma StepTowards(n: nat, sched: seq<Action>, t: nat)
    requires UnderWay(Exec(Init(n), sched), t)
    ensures var s, s' := Exec(Init(n), sched), Exec(Init(n), sched + [Continue(t)]);
      t < |s'.threads| && Rank(s'.mem, s'.threads[t]) < Rank(s.mem, s.threads[t]) && (UnderWay(s', t) || JustReturned(s', t))
  {
    var s := Exec(Init(n), sched);
    RunKeeps(n, sched);
    StepGains(s.mem, s.threads[t], t);
    OnlyReturnsIdle(s.mem, s.threads[t], t);
    assert (sched + [Continue(t)])[..|sched|] == sched;
  }

  lemma {:induction false} RunsOut(n: nat, sched: seq<Action>, t: nat) returns (k: nat)
    requires UnderWay(Exec(Init(n), sched), t)
    ensures k <= Rank(Exec(Init(n), sched).mem, Exec(Init(n), sched).threads[t])
    ensures JustReturned(Exec(Init(n), sched + Alone(t, k)), t)
    decreases Rank(Exec(Init(n), sched).mem, Exec(Init(n), sched).threads[t])
  {
    var next := sched + [Continue(t)];
    StepTowards(n, sched, t);
    if UnderWay(Exec(Init(n), next), t) {
      var l := RunsOut(n, next, t);
      k := l + 1;
      assert sched + Alone(t, k) == next + Alone(t, l);
    } else {
      k := 1;
      assert sched + Alone(t, 1) == next;
    }
  }

  lemma OnlyReturnsIdle(m: Mem, th: Local, t: nat)
    requires th.Busy?
    ensures var (_, th', es) := Step(m, th, t); th'.Idle? ==> |es| == 1 && es[0].Return? && es[0].t == t
  {
  }

  /** From every reachable state, a call under way that runs alone has answered after at most 38 instructions, whatever
      other operations have left half done. */
  lemma AloneAnswers(n: nat, sched: seq<Action>, t: nat)
    requires UnderWay(Exec(Init(n), sched), t)
    ensures exists k: nat :: k <= 38 && JustReturned(Exec(Init(n), sched + Alone(t, k)), t)
  {
    var k := RunsOut(n, sched, t);
    RankIsSmall(Exec(Init(n), sched).mem, Exec(Init(n), sched).threads[t]);
  }

  // ---------------------------------------------------------------- swaps are paid for by calls

  /** A call that has not taken effect may still swap the anchor, and after that two swaps may be needed to stabilise it. */
  function Unpaid(th: Local): nat {
    if th.Busy? && !th.pushed && !th.pc.RetPush? && !th.pc.RetEmpty? && !th.pc.RetPop? then 3 else 0
  }

  /** The swaps that are needed to stabilise the anchor. */
  function Lag(m: Mem): nat {
    if m.anchor.st.Stable? then 0
    else
      var e := PushSide(m.anchor.st);
      if |m.q| >= 2 && Outward(m, e, Inner(m.q, e)) == End(m.anchor, e) then 1 else 2
  }

  /** Nothing changes that another thread's count depends on. */
  predicate SameLinks(m: Mem, m': Mem) {
    m'.anchor == m.anchor && m'.q == m.q &&
    forall x :: 0 <= x < |m.stamp| && Published(m, x) ==> At(m'.left, x) == At(m.left, x) && At(m'.right, x) == At(m.right, x)
  }

  predicate Pays(m: Mem, th: Local, m': Mem, th': Local) {
    Lag(m') + Unpaid(th') < Lag(m) + Unpaid(th)
  }

  predicate Quiet(m: Mem, th: Local, m': Mem, th': Local) {
    SameLinks(m, m') && Unpaid(th') <= Unpaid(th)
  }

  lemma SwapPays(m: Mem, th: Local, t: nat)
    requires MemInv(m) && ThreadInv(m, th) && th.Busy? && m.anchor == th.a
    requires th.pc.CasEmpty? || th.pc.CasPush? || th.pc.CasOne? || th.pc.CasPop?
    ensures var (m', th', _) := Step(m, th, t); Pays(m, th, m', th')
  {
    if th.pc.CasOne? || th.pc.CasPop? { PopAnchor(m, th, t); }
  }

  lemma StabilisePays(m: Mem, th: Local, t: nat)
    requires MemInv(m) && ThreadInv(m, th) && th.Busy? && m.anchor == th.a && th.pc.StDone?
    ensures var (m', th', _) := Step(m, th, t); Pays(m, th, m', th')
  {
    assert !th.a.st.Stable?;
  }

  lemma FixPays(m: Mem, th: Local, t: nat)
    requires MemInv(m) && ThreadInv(m, th) && th.Busy? && th.pc.StFix? && Outward(m, PushSide(th.a.st), th.prev) == th.nbr
    ensures var (m', th', _) := Step(m, th, t); Pays(m, th, m', th')
  {
    StalledHelperIsHarmless(m, th);
    assert th.prev in m.q && Published(m, th.prev);
    assert th.nbr != End(th.a, PushSide(th.a.st));
    LinkPays(m, PushSide(m.anchor.st), th.prev);
    FixStep(m, th, t);
  }

  lemma FixStep(m: Mem, th: Local, t: nat)
    requires th.Busy? && th.pc.StFix? && Outward(m, PushSide(th.a.st), th.prev) == th.nbr
    ensures var (m', th', _) := Step(m, th, t); var e := PushSide(th.a.st);
      m' == SetOutward(m, e, th.prev, End(th.a, e)) && Unpaid(th') == Unpaid(th)
  {
  }

  /** Mending the lagging link leaves one swap to be done. */
  lemma LinkPays(m: Mem, e: Side, p: Ptr)
    requires Sized(m) && !m.anchor.st.Stable? && e == PushSide(m.anchor.st) && |m.q| >= 2 && p == Inner(m.q, e) && p < |m.left|
    requires Outward(m, e, p) != End(m.anchor, e)
    ensures Lag(m) == 2 && Lag(SetOutward(m, e, p, End(m.anchor, e))) == 1
  {
  }

  predicate Swaps(m: Mem, th: Local)
    requires th.Busy?
  {
    if th.pc.StFix? then Outward(m, PushSide(th.a.st), th.prev) == th.nbr
    else m.anchor == th.a && (th.pc.CasEmpty? || th.pc.CasPush? || th.pc.CasOne? || th.pc.CasPop? || th.pc.StDone?)
  }

  lemma StepPays(m: Mem, th: Local, t: nat)
    requires MemInv(m) && ThreadInv(m, th) && th.Busy?
    ensures var (m', th', _) := Step(m, th, t); if Swaps(m, th) then Pays(m, th, m', th') else Quiet(m, th, m', th')
  {
    if Swaps(m, th) {
      if th.pc.StFix? { FixPays(m, th, t); } else if th.pc.StDone? { StabilisePays(m, th, t); } else { SwapPays(m, th, t); }
    } else if th.pc.Link? {
      LinkQuiet(m, th, t);
    } else {
      ReadQuiet(m, th, t);
    }
  }

  lemma LinkQuiet(m: Mem, th: Local, t: nat)
    requires MemInv(m) && ThreadInv(m, th) && th.Busy? && th.pc.Link?
    ensures var (m', th', _) := Step(m, th, t); Quiet(m, th, m', th')
  {
  }

  lemma ReadQuiet(m: Mem, th: Local, t: nat)
    requires th.Busy? && !Swaps(m, th) && !th.pc.Link?
    ensures var (m', th', _) := Step(m, th, t); Quiet(m, th, m', th')
  {
  }

  lemma RankKept(m: Mem, m': Mem, th: Local)
    requires Sized(m) && SameLinks(m, m') && ThreadInv(m, th)
    ensures Rank(m', th) == Rank(m, th)
  {
    if th.Busy? && (th.pc.StA3? || th.pc.StFix?) { assert Published(m, th.prev) && th.prev < |m.stamp|; }
  }

  lemma LagKept(m: Mem, m': Mem)
    requires MemInv(m) && SameLinks(m, m')
    ensures Lag(m') == Lag(m)
  {
    if |m.q| >= 2 { assert m.q[1] in m.q && m.q[|m.q| - 2] in m.q; }
  }

  // ---------------------------------------------------------------- the potential

  function RanksOf(m: Mem, threads: seq<Local>): seq<nat> {
    seq(|threads|, t requires 0 <= t < |threads| => Rank(m, threads[t]))
  }

  function DebtsOf(threads: seq<Local>): seq<nat> {
    seq(|threads|, t requires 0 <= t < |threads| => Unpaid(threads[t]))
  }

  function PotentialOf(s: State): nat {
    Potential(RanksOf(s.mem, s.threads), DebtsOf(s.threads), Lag(s.mem), Most)
  }

  lemma SwapSpends(m: Mem, m': Mem, threads: seq<Local>, t: nat, th': Local)
    requires t < |threads| && Pays(m, threads[t], m', th')
    ensures Potential(RanksOf(m', threads[t := th']), DebtsOf(threads[t := th']), Lag(m'), Most)
          < Potential(RanksOf(m, threads), DebtsOf(threads), Lag(m), Most)
  {
    var threads' := threads[t := th'];
    forall u | 0 <= u < |threads'| ensures RanksOf(m', threads')[u] <= Most { RankIsSmall(m', threads'[u]); }
    ChangeSpends(RanksOf(m, threads), DebtsOf(threads), Lag(m), RanksOf(m', threads'), DebtsOf(threads'), Lag(m'), Most, t);
  }

  predicate OthersAsBefore(m: Mem, m': Mem, threads: seq<Local>) {
    Lag(m') == Lag(m) && forall u :: 0 <= u < |threads| ==> Rank(m', threads[u]) == Rank(m, threads[u])
  }

  lemma QuietSpends(m: Mem, m': Mem, threads: seq<Local>, t: nat, th': Local)
    requires t < |threads| && Quiet(m, threads[t], m', th') && OthersAsBefore(m, m', threads)
    requires Rank(m', th') < Rank(m, threads[t])
    ensures Potential(RanksOf(m', threads[t := th']), DebtsOf(threads[t := th']), Lag(m'), Most)
          < Potential(RanksOf(m, threads), DebtsOf(threads), Lag(m), Most)
  {
    var threads' := threads[t := th'];
    StepSpends(RanksOf(m, threads), DebtsOf(threads), Lag(m), RanksOf(m', threads'), DebtsOf(threads'), Lag(m'), Most, t);
  }

  lemma OthersKeepRanks(m: Mem, m': Mem, threads: seq<Local>)
    requires MemInv(m) && ThreadsInv(m, threads) && SameLinks(m, m')
    ensures OthersAsBefore(m, m', threads)
  {
    LagKept(m, m');
    forall u | 0 <= u < |threads| ensures Rank(m', threads[u]) == Rank(m, threads[u]) { RankKept(m, m', threads[u]); }
  }

  /** An instruction lowers the potential. */
  lemma ContinueSpends(s: State, t: nat)
    requires Inv(s) && t < |s.threads| && s.threads[t].Busy?
    ensures PotentialOf(Apply(s, Continue(t))) < PotentialOf(s)
  {
    var (m', th', _) := Step(s.mem, s.threads[t], t);
    StepPays(s.mem, s.threads[t], t);
    if Swaps(s.mem, s.threads[t]) {
      SwapSpends(s.mem, m', s.threads, t, th');
    } else {
      StepGains(s.mem, s.threads[t], t);
      OthersKeepRanks(s.mem, m', s.threads);
      QuietSpends(s.mem, m', s.threads, t, th');
    }
  }

  /** What a new call may cost. */
  function Cost(n: nat): nat { FromUnstable + 3 * Price(n, Most) }

  lemma EnterBuys(m: Mem, m': Mem, threads: seq<Local>, t: nat, th': Local)
    requires t < |threads| && OthersAsBefore(m, m', threads)
    requires threads[t].Idle? && Rank(m', th') <= FromUnstable && Unpaid(th') == 3
    ensures Potential(RanksOf(m', threads[t := th']), DebtsOf(threads[t := th']), Lag(m'), Most)
         <= Potential(RanksOf(m, threads), DebtsOf(threads), Lag(m), Most) + Cost(|threads|)
  {
    var threads' := threads[t := th'];
    CallBuys(RanksOf(m, threads), DebtsOf(threads), Lag(m), RanksOf(m', threads'), DebtsOf(threads'), Most, t);
  }

  lemma InvokeBuys(s: State, t: nat, op: Op)
    requires Inv(s) && t < |s.threads| && s.threads[t].Idle?
    ensures PotentialOf(Apply(s, Invoke(t, op))) <= PotentialOf(s) + Cost(|s.threads|)
  {
    var (m', th') := Enter(s.mem, op);
    OthersKeepRanks(s.mem, m', s.threads);
    EnterBuys(s.mem, m', s.threads, t, th');
  }

  // ---------------------------------------------------------------- whole runs

  predicate IsCall(s: State, act: Action) { act.Invoke? && act.t < |s.threads| && s.threads[act.t].Idle? }
  predicate IsInstruction(s: State, act: Action) { act.Continue? && act.t < |s.threads| && s.threads[act.t].Busy? }

  /** The actions of a run that call an operation, and those that execute an instruction. */
  function Calls(n: nat, sched: seq<Action>): nat {
    if sched == [] then 0
    else
      var before, last := sched[..|sched| - 1], sched[|sched| - 1];
      Calls(n, before) + if IsCall(Exec(Init(n), before), last) then 1 else 0
  }

  function Instructions(n: nat, sched: seq<Action>): nat {
    if sched == [] then 0
    else
      var before, last := sched[..|sched| - 1], sched[|sched| - 1];
      Instructions(n, before) + if IsInstruction(Exec(Init(n), before), last) then 1 else 0
  }

  lemma {:induction false} SameThreads(n: nat, sched: seq<Action>)
    ensures |Exec(Init(n), sched).threads| == n
  {
    if sched != [] { SameThreads(n, sched[..|sched| - 1]); }
  }

  lemma ActionSpends(s: State, act: Action)
    requires Inv(s)
    ensures (if IsInstruction(s, act) then 1 else 0) + PotentialOf(Apply(s, act))
         <= PotentialOf(s) + if IsCall(s, act) then Cost(|s.threads|) else 0
  {
    if IsInstruction(s, act) { ContinueSpends(s, act.t); }
    if IsCall(s, act) { InvokeBuys(s, act.t, act.op); }
  }

  lemma {:induction false} Spent(n: nat, sched: seq<Action>)
    ensures Instructions(n, sched) + PotentialOf(Exec(Init(n), sched)) <= Cost(n) * Calls(n, sched)
  {
    if sched == [] {
      SumZero(RanksOf(Init(n).mem, Init(n).threads));
      SumZero(DebtsOf(Init(n).threads));
    } else {
      var before, last := sched[..|sched| - 1], sched[|sched| - 1];
      Spent(n, before);
      Distribute(Cost(n), Calls(n, before), 1);
      Tally(n, before, last, sched);
    }
  }

  lemma Tally(n: nat, before: seq<Action>, last: Action, sched: seq<Action>)
    requires sched != [] && before == sched[..|sched| - 1] && last == sched[|sched| - 1]
    ensures var s, s' := Exec(Init(n), before), Exec(Init(n), sched); var calls, steps := Calls(n, before), Instructions(n, before);
      && calls <= Calls(n, sched) <= calls + 1
      && Instructions(n, sched) + PotentialOf(s') <= steps + PotentialOf(s) + if Calls(n, sched) == calls then 0 else Cost(n)
  {
    RunKeeps(n, before);
    SameThreads(n, before);
    ActionSpends(Exec(Init(n), before), last);
  }

  /** The deque is lock-free: in a run of n threads with c calls there are at most (114 n + 28) c instructions, failed attempts
      and help for others included.  So threads that keep running keep finishing calls. */
  lemma DequeIsLockFree(n: nat, sched: seq<Action>)
    ensures Instructions(n, sched) <= (114 * n + 28) * Calls(n, sched)
  {
    Spent(n, sched);
    assert Cost(n) == 114 * n + 28;
  }
}
