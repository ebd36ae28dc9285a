/**
 That the elimination-backoff stack is lock-free: waiting in a slot is bounded, and what other threads do to the slots
 never makes a thread start over.  A call that runs on its own answers within a fixed number of instructions, unless it
 draws a position outside the arrays; and in every run the number of instructions is bounded by the number of calls.
 */
module EBStackProgress {
  import opened Linearizability
  import opened StackSpecs
  import opened EBStack
  import opened EBStackProof
  import opened LockFreedom

  // ---------------------------------------------------------------- how far a call is from its answer

  /** Slots to be tried, this one included. */
  function Left(i: nat): nat { if i < TRY_TIMES then TRY_TIMES - i else 1 }

  /** What the thread has read at top is still there. */
  predicate Current(m: Mem, th: Local)
    requires th.Busy?
  {
    m.top == th.oldTop
  }

  function PushRank(m: Mem, th: Local): nat
    requires th.Busy?
  {
    match th.pc
    case PushRead => 4
    case PushWrite => if Current(m, th) then 3 else 25
    case PushCas => if Current(m, th) then 2 else 24
    case AddPos => 23
    case FeedLoad => 14 + 2 * Left(th.i)
    case FeedCas => 13 + 2 * Left(th.i)
    case OfferLoad => 6 + 2 * Left(th.i)
    case OfferCas => 5 + 2 * Left(th.i)
    case WaitLoad => 6
    case Withdraw => 5
    case ClearPush => 2
    case _ => 1
  }

  function PopRank(m: Mem, th: Local): nat
    requires th.Busy?
  {
    match th.pc
    case PopRead => 6
    case PopCheck => if Current(m, th) then 5 else 7
    case PopNext => if Current(m, th) then 4 else 27
    case PopCas => if Current(m, th) then 3 else 26
    case RemPos => 25
    case TakeLoad => 16 + 2 * Left(th.i)
    case TakeCas => 15 + 2 * Left(th.i)
    case TombLoad => 8 + 2 * Left(th.i)
    case TombCas => 7 + 2 * Left(th.i)
    case TombWait => if PopSlot(m, Index(m, th)) == Tomb then 8 else 4
    case TombWithdraw => if PopSlot(m, Index(m, th)) == Tomb then 7 else 5
    case ClearPop => 3
    case PopData => 2
    case PeekRead => 4
    case PeekCheck => if Current(m, th) then 3 else 5
    case PeekData => 2
    case _ => 1
  }

  predicate OfPush(pc: PC) {
    InPushCall(pc) || pc.PushCas? || pc.WaitLoad? || pc.Withdraw? || pc.ClearPush? || pc.RetPush?
  }

  /** At most this many instructions remain, if nobody else runs. */
  function Rank(m: Mem, th: Local): nat {
    if th.Idle? || th.pc.Crash? then 0 else if OfPush(th.pc) then PushRank(m, th) else PopRank(m, th)
  }

  const Most := 27

  lemma RankIsSmall(m: Mem, th: Local)
    ensures Rank(m, th) <= Most && (th.Busy? && !th.pc.Crash? ==> Rank(m, th) > 0)
  {
  }

  /** Each instruction of a thread brings it nearer to its answer, by the thread's own count. */
  lemma StepGains(m: Mem, th: Local, t: nat)
    requires th.Busy? && !th.pc.Crash?
    ensures var (m', th', _) := Step(m, th, t); Rank(m', th') < Rank(m, th)
  {
    if OfPush(th.pc) { PushGains(m, th, t); }
    else if th.pc.TombCas? || th.pc.TombWait? || th.pc.TombWithdraw? || th.pc.ClearPop? { TombGains(m, th, t); }
    else { PopGains(m, th, t); }
  }

  lemma PushGains(m: Mem, th: Local, t: nat)
    requires th.Busy? && OfPush(th.pc)
    ensures var (m', th', _) := Step(m, th, t); Rank(m', th') < Rank(m, th)
  {
  }

  lemma TombGains(m: Mem, th: Local, t: nat)
    requires th.Busy? && (th.pc.TombCas? || th.pc.TombWait? || th.pc.TombWithdraw? || th.pc.ClearPop?)
    ensures var (m', th', _) := Step(m, th, t); Rank(m', th') < Rank(m, th)
  {
  }

  predicate OfTop(pc: PC) {
    pc.PopRead? || pc.PopCheck? || pc.PopNext? || pc.PopCas? || pc.PopData? || pc.RetPop?
  }

  lemma TopGains(m: Mem, th: Local, t: nat)
    requires th.Busy? && OfTop(th.pc)
    ensures var (m', th', _) := Step(m, th, t); Rank(m', th') < Rank(m, th)
  {
  }

  lemma ProbeGains(m: Mem, th: Local, t: nat)
    requires th.Busy? && (th.pc.RemPos? || th.pc.TakeLoad? || th.pc.TakeCas? || th.pc.TombLoad?)
    ensures var (m', th', _) := Step(m, th, t); Rank(m', th') < Rank(m, th)
  {
  }

  lemma PopGains(m: Mem, th: Local, t: nat)
    requires th.Busy? && !th.pc.Crash? && !OfPush(th.pc)
    requires !th.pc.TombCas? && !th.pc.TombWait? && !th.pc.TombWithdraw? && !th.pc.ClearPop?
    ensures var (m', th', _) := Step(m, th, t); Rank(m', th') < Rank(m, th)
  {
    if OfTop(th.pc) { TopGains(m, th, t); }
    else if th.pc.RemPos? || th.pc.TakeLoad? || th.pc.TakeCas? || th.pc.TombLoad? { ProbeGains(m, th, t); }
    else { PeekGains(m, th, t); }
  }

  lemma PeekGains(m: Mem, th: Local, t: nat)
    requires th.Busy? && (th.pc.PeekRead? || th.pc.PeekCheck? || th.pc.PeekData? || th.pc.RetPeek? || th.pc.RetEmpty?)
    ensures var (m', th', _) := Step(m, th, t); Rank(m', th') < Rank(m, th)
  {
  }

  // ---------------------------------------------------------------- a call that runs on its own

  /** Thread t takes j steps and nothing else happens. */
  function Alone(t: nat, j: nat): seq<Action> { seq(j, _ => Continue(t)) }

  /** The thread is idle, and what happened last is that its call returned. */
  predicate JustReturned(s: State, t: nat) {
    && t < |s.threads| && s.threads[t].Idle?
    && s.trace != [] && s.trace[|s.trace| - 1].Return? && s.trace[|s.trace| - 1].t == t
  }

  predicate UnderWay(s: State, t: nat) { t < |s.threads| && s.threads[t].Busy? && !s.threads[t].pc.Crash? }
  predicate Crashed(s: State, t: nat) { t < |s.threads| && s.threads[t].Busy? && s.threads[t].pc.Crash? }

  predicate Ended(s: State, t: nat) { JustReturned(s, t) || Crashed(s, t) }

  lemma OnlyReturnsIdle(m: Mem, th: Local, t: nat)
    requires th.Busy?
    ensures var (_, th', es) := Step(m, th, t); th'.Idle? ==> |es| == 1 && es[0].Return? && es[0].t == t
  {
  }

  lemma PhaseIrrelevant(m: Mem, phase: seq<Phase<Op, Ret>>, th: Local)
    ensures Rank(m.(phase := phase), th) == Rank(m, th)
  {
  }

  lemma ApplyTowards(s: State, t: nat)
    requires UnderWay(s, t)
    ensures var s' := Apply(s, Continue(t));
      && t < |s'.threads| && Rank(s'.mem, s'.threads[t]) < Rank(s.mem, s.threads[t])
      && (UnderWay(s', t) || Ended(s', t))
  {
    var (m', th', es) := Step(s.mem, s.threads[t], t);
    StepGains(s.mem, s.threads[t], t);
    OnlyReturnsIdle(s.mem, s.threads[t], t);
    PhaseIrrelevant(m', MovedBy(m'.phase, es), th');
  }

  lemma StepTowards(n: nat, k: nat, sched: seq<Action>, t: nat)
    requires UnderWay(Exec(Init(n, k), sched), t)
    ensures var s, s' := Exec(Init(n, k), sched), Exec(Init(n, k), sched + [Continue(t)]);
      && t < |s'.threads| && Rank(s'.mem, s'.threads[t]) < Rank(s.mem, s.threads[t])
      && (UnderWay(s', t) || Ended(s', t))
  {
    ApplyTowards(Exec(Init(n, k), sched), t);
    assert (sched + [Continue(t)])[..|sched|] == sched;
  }

  lemma {:induction false} RunsOut(n: nat, k: nat, sched: seq<Action>, t: nat) returns (j: nat)
    requires UnderWay(Exec(Init(n, k), sched), t)
    ensures j <= Rank(Exec(Init(n, k), sched).mem, Exec(Init(n, k), sched).threads[t])
    ensures Ended(Exec(Init(n, k), sched + Alone(t, j)), t)
    decreases Rank(Exec(Init(n, k), sched).mem, Exec(Init(n, k), sched).threads[t])
  {
    var next := sched + [Continue(t)];
    StepTowards(n, k, sched, t);
    if UnderWay(Exec(Init(n, k), next), t) {
      var l := RunsOut(n, k, next, t);
      j := l + 1;
      assert sched + Alone(t, j) == next + Alone(t, l);
    } else {
      j := 1;
      assert sched + Alone(t, 1) == next;
    }
  }

  /** From every reachable state, a call under way that runs alone has answered after at most 27 instructions, in particular
      one that waits in a slot, unless it draws a position outside the arrays. */
  lemma AloneAnswers(n: nat, k: nat, sched: seq<Action>, t: nat)
    requires UnderWay(Exec(Init(n, k), sched), t)
    ensures exists j: nat :: j <= 27 && Ended(Exec(Init(n, k), sched + Alone(t, j)), t)
  {
    var j := RunsOut(n, k, sched, t);
    RankIsSmall(Exec(Init(n, k), sched).mem, Exec(Init(n, k), sched).threads[t]);
  }

  // ---------------------------------------------------------------- changes of top are paid for by calls

  /** A push or a pop that has not taken effect may still change top. */
  function Unpaid(th: Local): nat {
    if th.Busy? && (if OfPush(th.pc) then !th.pc.ClearPush? && !th.pc.RetPush? else MayPop(th.pc)) then 1 else 0
  }

  predicate MayPop(pc: PC) {
    pc.PopRead? || pc.PopCheck? || pc.PopNext? || pc.PopCas? || pc.RemPos? || pc.TakeLoad? || pc.TakeCas? || pc.TombLoad? ||
    pc.TombCas? || pc.TombWait? || pc.TombWithdraw?
  }

  lemma StepPays(m: Mem, th: Local, t: nat)
    requires th.Busy?
    ensures var (m', th', _) := Step(m, th, t); (m'.top == m.top && Unpaid(th') <= Unpaid(th)) || Unpaid(th') < Unpaid(th)
  {
    if OfPush(th.pc) { PushPays(m, th, t); } else { PopPays(m, th, t); }
  }

  lemma PushPays(m: Mem, th: Local, t: nat)
    requires th.Busy? && OfPush(th.pc)
    ensures var (m', th', _) := Step(m, th, t); (m'.top == m.top && Unpaid(th') <= Unpaid(th)) || Unpaid(th') < Unpaid(th)
  {
  }

  lemma PopPays(m: Mem, th: Local, t: nat)
    requires th.Busy? && !OfPush(th.pc)
    ensures var (m', th', _) := Step(m, th, t); (m'.top == m.top && Unpaid(th') <= Unpaid(th)) || Unpaid(th') < Unpaid(th)
  {
  }

  /** The slot in which a pop waits is only ever filled by others, and that brings the pop nearer to its answer. */
  lemma RankKept(m: Mem, m': Mem, t: nat, th: Local, u: nat)
    requires SlotsInv(m) && Rely(m, m', t) && ThreadInv(m, th, u) && u != t && m'.top == m.top
    ensures Rank(m', th) <= Rank(m, th)
  {
    if th.Busy? && (th.pc.TombWait? || th.pc.TombWithdraw?) {
      assert PopSlotOk(m, Index(m, th));
      assert PopKept(m, m', Index(m, th));
      assert Index(m', th) == Index(m, th);
    }
  }

  function RanksOf(m: Mem, threads: seq<Local>): seq<nat> {
    seq(|threads|, t requires 0 <= t < |threads| => Rank(m, threads[t]))
  }

  function DebtsOf(threads: seq<Local>): seq<nat> {
    seq(|threads|, t requires 0 <= t < |threads| => Unpaid(threads[t]))
  }

  function PotentialOf(s: State): nat {
    Potential(RanksOf(s.mem, s.threads), DebtsOf(s.threads), 0, Most)
  }

  predicate OthersNoFurther(m: Mem, m': Mem, threads: seq<Local>, t: nat) {
    forall u :: 0 <= u < |threads| && u != t ==> Rank(m', threads[u]) <= Rank(m, threads[u])
  }

  lemma ThreadSpends(m: Mem, m': Mem, threads: seq<Local>, t: nat, th': Local)
    requires t < |threads| && Rank(m', th') < Rank(m, threads[t])
    requires (OthersNoFurther(m, m', threads, t) && Unpaid(th') <= Unpaid(threads[t])) || Unpaid(th') < Unpaid(threads[t])
    ensures Potential(RanksOf(m', threads[t := th']), DebtsOf(threads[t := th']), 0, Most)
          < Potential(RanksOf(m, threads), DebtsOf(threads), 0, Most)
  {
    var threads' := threads[t := th'];
    if OthersNoFurther(m, m', threads, t) && Unpaid(th') <= Unpaid(threads[t]) {
      StepSpends(RanksOf(m, threads), DebtsOf(threads), 0, RanksOf(m', threads'), DebtsOf(threads'), 0, Most, t);
    } else {
      forall u | 0 <= u < |threads'| ensures RanksOf(m', threads')[u] <= Most { RankIsSmall(m', threads'[u]); }
      ChangeSpends(RanksOf(m, threads), DebtsOf(threads), 0, RanksOf(m', threads'), DebtsOf(threads'), 0, Most, t);
    }
  }

  lemma OthersKeepRanks(m: Mem, m': Mem, threads: seq<Local>, t: nat)
    requires SlotsInv(m) && ThreadsInv(m, threads) && Rely(m, m', t) && m'.top == m.top
    ensures OthersNoFurther(m, m', threads, t)
  {
    forall u | 0 <= u < |threads| && u != t ensures Rank(m', threads[u]) <= Rank(m, threads[u]) {
      RankKept(m, m', t, threads[u], u);
    }
  }

  /** An instruction lowers the potential. */
  lemma ContinueSpends(s: State, t: nat)
    requires Inv(s) && UnderWay(s, t)
    ensures PotentialOf(Apply(s, Continue(t))) < PotentialOf(s)
  {
    var (m1, th', es) := Step(s.mem, s.threads[t], t);
    var m' := m1.(phase := MovedBy(m1.phase, es));
    StepPays(s.mem, s.threads[t], t);
    StepGains(s.mem, s.threads[t], t);
    PhaseIrrelevant(m1, m'.phase, th');
    if m1.top == s.mem.top {
      StepRefinesStack(s.mem, s.threads[t], t);
      PhaseUntouched(s.mem, s.threads[t], t);
      OthersKeepRanks(s.mem, m', s.threads, t);
    }
    ThreadSpends(s.mem, m', s.threads, t, th');
  }

  /** What a new call may cost. */
  function Cost(n: nat): nat { 6 + Price(n, Most) }

  lemma EnterBuys(m: Mem, m': Mem, threads: seq<Local>, t: nat, th': Local)
    requires t < |threads| && threads[t].Idle? && Rank(m', th') <= 6 && Unpaid(th') <= 1 && OthersNoFurther(m, m', threads, t)
    ensures Potential(RanksOf(m', threads[t := th']), DebtsOf(threads[t := th']), 0, Most)
         <= Potential(RanksOf(m, threads), DebtsOf(threads), 0, Most) + Cost(|threads|)
  {
    var threads' := threads[t := th'];
    CallBuys(RanksOf(m, threads), DebtsOf(threads), 0, RanksOf(m', threads'), DebtsOf(threads'), Most, t);
    Times(Price(|threads|, Most), Unpaid(th'), 1);
  }

  lemma EnterKeepsRank(m: Mem, op: Op, t: nat, th: Local)
    ensures Rank(Enter(m, op, t).0, th) == Rank(m, th)
  {
  }

  lemma InvokeBuys(s: State, t: nat, op: Op)
    requires t < |s.threads| && s.threads[t].Idle?
    ensures PotentialOf(Apply(s, Invoke(t, op))) <= PotentialOf(s) + Cost(|s.threads|)
  {
    var (m1, th') := Enter(s.mem, op, t);
    var m' := m1.(phase := MovedBy(s.mem.phase, [Call(t, op)]));
    forall u | 0 <= u < |s.threads| && u != t ensures Rank(m', s.threads[u]) <= Rank(s.mem, s.threads[u]) {
      EnterKeepsRank(s.mem, op, t, s.threads[u]);
      PhaseIrrelevant(m1, m'.phase, s.threads[u]);
    }
    EnterBuys(s.mem, m', s.threads, t, th');
  }

  // ---------------------------------------------------------------- whole runs

  predicate IsCall(s: State, act: Action) { act.Invoke? && act.t < |s.threads| && s.threads[act.t].Idle? }
  predicate IsInstruction(s: State, act: Action) { act.Continue? && UnderWay(s, act.t) }

  /** The actions of a run that call an operation, and those that execute an instruction. */
  function Calls(n: nat, k: nat, sched: seq<Action>): nat {
    if sched == [] then 0
    else
      var before, last := sched[..|sched| - 1], sched[|sched| - 1];
      Calls(n, k, before) + if IsCall(Exec(Init(n, k), before), last) then 1 else 0
  }

  function Instructions(n: nat, k: nat, sched: seq<Action>): nat {
    if sched == [] then 0
    else
      var before, last := sched[..|sched| - 1], sched[|sched| - 1];
      Instructions(n, k, before) + if IsInstruction(Exec(Init(n, k), before), last) then 1 else 0
  }

  lemma {:induction false} SameThreads(n: nat, k: nat, sched: seq<Action>)
    ensures |Exec(Init(n, k), sched).threads| == n
  {
    if sched != [] { SameThreads(n, k, sched[..|sched| - 1]); }
  }

  lemma IdleStays(s: State, act: Action)
    requires !IsInstruction(s, act) && !IsCall(s, act)
    ensures PotentialOf(Apply(s, act)) == PotentialOf(s)
  {
    if act.t < |s.threads| && act.Continue? && s.threads[act.t].Busy? {
      assert s.threads[act.t := s.threads[act.t]] == s.threads;
    }
  }

  lemma ActionSpends(s: State, act: Action)
    requires Inv(s)
    ensures (if IsInstruction(s, act) then 1 else 0) + PotentialOf(Apply(s, act))
         <= PotentialOf(s) + if IsCall(s, act) then Cost(|s.threads|) else 0
  {
    if IsInstruction(s, act) { ContinueSpends(s, act.t); }
    else if IsCall(s, act) { InvokeBuys(s, act.t, act.op); }
    else { IdleStays(s, act); }
  }

  lemma {:induction false} Spent(n: nat, k: nat, sched: seq<Action>)
    requires k > 0
    ensures Instructions(n, k, sched) + PotentialOf(Exec(Init(n, k), sched)) <= Cost(n) * Calls(n, k, sched)
  {
    if sched == [] {
      SumZero(RanksOf(Init(n, k).mem, Init(n, k).threads));
      SumZero(DebtsOf(Init(n, k).threads));
    } else {
      var before, last := sched[..|sched| - 1], sched[|sched| - 1];
      Spent(n, k, before);
      Distribute(Cost(n), Calls(n, k, before), 1);
      Tally(n, k, before, last, sched);
    }
  }

  lemma Tally(n: nat, k: nat, before: seq<Action>, last: Action, sched: seq<Action>)
    requires k > 0 && sched != [] && before == sched[..|sched| - 1] && last == sched[|sched| - 1]
    ensures var s, s' := Exec(Init(n, k), before), Exec(Init(n, k), sched);
      var calls, steps := Calls(n, k, before), Instructions(n, k, before);
      && calls <= Calls(n, k, sched) <= calls + 1
      && Instructions(n, k, sched) + PotentialOf(s') <= steps + PotentialOf(s) + if Calls(n, k, sched) == calls then 0 else Cost(n)
  {
    RunKeeps(n, k, before);
    SameThreads(n, k, before);
    ActionSpends(Exec(Init(n, k), before), last);
  }

  /** The stack is lock-free: in a run of n threads with c calls there are at most (27 n + 7) c instructions. */
  lemma StackIsLockFree(n: nat, k: nat, sched: seq<Action>)
    requires k > 0
    ensures Instructions(n, k, sched) <= (27 * n + 7) * Calls(n, k, sched)
  {
    Spent(n, k, sched);
    assert Cost(n) == 27 * n + 7;
  }

  // ---------------------------------------------------------------- calls that meet

  /** Thread t takes two steps and nothing else happens. */
  function Two(s: State, t: nat): (s': State)
    ensures |s'.threads| == |s.threads|
  {
    Apply(Apply(s, Continue(t)), Continue(t))
  }

  lemma Next(s: State, t: nat)
    requires t < |s.threads| && s.threads[t].Busy?
    ensures var s' := Apply(s, Continue(t)); var (m, th', es) := Step(s.mem, s.threads[t], t);
      s'.mem == m.(phase := s'.mem.phase) && s'.threads == s.threads[t := th'] && s'.trace == s.trace + es
  {
  }

  predicate At(s: State, t: nat, pc: PC) { t < |s.threads| && s.threads[t].Busy? && s.threads[t].pc == pc }

  /** The slot at the position that the counter gives next. */
  predicate Drawn(m: Mem, x: nat) { x < |m.push| && Draw(m) == x }

  /** A call whose compare-and-swap on top fails looks at the slot that it draws. */
  lemma LooksAtDrawn(s: State, t: nat, x: nat)
    requires (At(s, t, PushCas) || At(s, t, PopCas)) && s.mem.top != s.threads[t].oldTop && Drawn(s.mem, x)
    ensures var th, s' := s.threads[t], Two(s, t);
      && s'.trace == s.trace && s'.mem.(phase := s.mem.phase, counter := s.mem.counter) == s.mem
      && s'.threads == s.threads[t := th.(pc := if th.pc.PushCas? then FeedLoad else TakeLoad, pos := x, i := 0)]
      && Index(s'.mem, s'.threads[t]) == x
  {
    Next(s, t);
    Next(Apply(s, Continue(t)), t);
    SmallMod(x, |s.mem.push|);
  }

  lemma SmallMod(x: nat, d: nat)
    requires x < d
    ensures (x + 0) % d == x
  {
  }

  /** A push that finds a tombstone feeds the pop that waits there: both have taken effect, and top is as it was. */
  lemma PushFeedsPop(s: State, t: nat)
    requires At(s, t, FeedLoad) && PopSlot(s.mem, Index(s.mem, s.threads[t])) == Tomb
    ensures var th, s' := s.threads[t], Two(s, t); var x := Index(s.mem, th);
      && At(s', t, RetPush) && s'.mem.top == s.mem.top && s'.mem.stack == s.mem.stack
      && PopSlot(s'.mem, x) == Node(th.node)
      && s'.trace == s.trace + [Commit(t, th.op, Pushed), Commit(Popper(s.mem, x), Pop, Got(Data(s.mem, th.node)))]
  {
    Next(s, t);
    Next(Apply(s, Continue(t)), t);
  }

  /** A pop that finds a node offered takes it from the push that waits there. */
  lemma PopTakesOffer(s: State, t: nat)
    requires At(s, t, TakeLoad) && PushSlot(s.mem, Index(s.mem, s.threads[t])).Node?
    ensures var th, s' := s.threads[t], Two(s, t); var x := Index(s.mem, th); var p := PushSlot(s.mem, x).p;
      && At(s', t, PopData) && s'.threads[t].p == p && s'.mem.top == s.mem.top && s'.mem.stack == s.mem.stack
      && PushSlot(s'.mem, x) == Removed
      && s'.trace == s.trace + [Commit(Pusher(s.mem, x), Push(Data(s.mem, p)), Pushed), Commit(t, th.op, Got(Data(s.mem, p)))]
  {
    Next(s, t);
    Next(Apply(s, Continue(t)), t);
  }

  /** A push offers its node in a free slot that it looks at, and a pop leaves a tombstone there. */
  lemma FreeSlotsAreUsed(s: State, t: nat)
    requires At(s, t, OfferLoad) || At(s, t, TombLoad)
    ensures var th, s' := s.threads[t], Two(s, t); var x := Index(s.mem, th);
      && (th.pc.OfferLoad? && PushSlot(s.mem, x) == Free ==> PushSlot(s'.mem, x) == Node(th.node) && At(s', t, WaitLoad))
      && (th.pc.TombLoad? && PopSlot(s.mem, x) == Free ==> PopSlot(s'.mem, x) == Tomb && At(s', t, TombWait))
  {
    Next(s, t);
    Next(Apply(s, Continue(t)), t);
  }
}
