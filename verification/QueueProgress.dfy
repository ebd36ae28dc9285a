/**
 That the queue is lock-free: a call that runs on its own answers within a fixed number of instructions, and in every run
 the number of instructions is bounded by the number of calls.
 */
module QueueProgress {
  import opened Queue
  import opened LockFreedom

  // ---------------------------------------------------------------- how far a call is from its answer

  /** tail is not the last node. */
  predicate Lags(m: Mem) { m.tpos + 1 < |m.chain| }
  function Lag(m: Mem): nat { if Lags(m) then 1 else 0 }

  /** Instructions from here to the next attempt, if this one fails. */
  function ToRetry(pc: PC): nat {
    match pc
    case ChkTail => 1
    case ReadTailNext => 3
    case ChkTail2 => 2
    case HelpTail => 1
    case CasNext => 1
    case ChkHead => 1
    case ReadNext => 2
    case ChkHead2 => 1
    case ReadTail2 => 3
    case ReadData => 2
    case CasHead => 1
    case PushTail => 1
    case _ => 0
  }

  /** Instructions to the answer if this attempt succeeds, not counting those that move tail first. */
  function ToAnswer(pc: PC): nat {
    match pc
    case ReadTail => 7
    case ChkTail => 6
    case ReadTailNext => 5
    case ChkTail2 => 4
    case CasNext => 3
    case SwingTail => 2
    case ReadHead => 8
    case ChkHead => 7
    case ReadNext => 6
    case ChkHead2 => 5
    case ReadTail2 => 4
    case ReadData => 3
    case CasHead => 2
    case _ => 1
  }

  /** A new attempt, with tail to be moved first if it lags. */
  function Anew(m: Mem, op: Op): nat {
    if op.Enqueue? then 7 + 5 * Lag(m) else 8 + 6 * Lag(m)
  }

  /** What the thread has read is still so. */
  predicate Current(m: Mem, th: Local)
    requires th.Busy?
  {
    match th.pc
    case ChkTail => m.tail == th.p
    case ReadTailNext => m.tail == th.p
    case ChkTail2 => m.tail == th.p && th.n == Next(m, th.p)
    case HelpTail => m.tail == th.p
    case CasNext => Next(m, th.p) == NULL && th.p < |m.next|
    case PushTail => m.tail == th.p
    case ReadTail => true
    case ReadHead => true
    case SwingTail => true
    case RetEnq => true
    case RetEmpty => true
    case RetGot => true
    case _ => m.head == th.p
  }

  /** At most this many instructions remain, if nobody else runs. */
  function Rank(m: Mem, th: Local): nat {
    if th.Idle? then 0
    else if !Current(m, th) then ToRetry(th.pc) + Anew(m, th.op)
    else
      match th.pc
      case HelpTail => 8
      case PushTail => 9
      case ReadTail => Anew(m, th.op)
      case ReadHead => Anew(m, th.op)
      case ChkTail => 6 + 5 * Lag(m)
      case ReadTailNext => 5 + 5 * Lag(m)
      case ChkTail2 => 4 + 5 * Lag(m)
      case ChkHead => 7 + 6 * Lag(m)
      case ReadNext => 6 + 6 * Lag(m)
      case ChkHead2 => 5 + 6 * Lag(m)
      case ReadTail2 => 4 + 6 * Lag(m)
      case _ => ToAnswer(th.pc)
  }

  const Most := 17

  lemma RankIsSmall(m: Mem, th: Local)
    ensures Rank(m, th) <= Most && (th.Busy? ==> Rank(m, th) > 0)
  {
  }

  /** Each instruction of a thread brings it nearer to its answer, by the thread's own count. */
  lemma StepGains(m: Mem, th: Local, t: nat)
    requires MemInv(m) && ThreadInv(m, th) && th.Busy?
    ensures var (m', th', _) := Step(m, th, t); Rank(m', th') < Rank(m, th)
  {
    if th.op.Enqueue? { EnqueueGains(m, th, t); } else { DequeueGains(m, th, t); }
  }

  lemma EnqueueGains(m: Mem, th: Local, t: nat)
    requires MemInv(m) && ThreadInv(m, th) && th.Busy? && th.op.Enqueue?
    ensures var (m', th', _) := Step(m, th, t); Rank(m', th') < Rank(m, th)
  {
    LinkAt(m, m.tpos);
    if !th.pc.ReadTail? && !th.pc.RetEnq? { LinkAt(m, th.pos); }
  }

  lemma DequeueGains(m: Mem, th: Local, t: nat)
    requires MemInv(m) && ThreadInv(m, th) && th.Busy? && th.op.Dequeue?
    ensures var (m', th', _) := Step(m, th, t); Rank(m', th') < Rank(m, th)
  {
    LinkAt(m, m.tpos);
    if th.pc.ReadHead? || th.pc.ChkHead? || th.pc.ReadNext? || th.pc.ChkHead2? || th.pc.RetEmpty? || th.pc.RetGot? {
      HeadGains(m, th, t);
    } else {
      LinkAt(m, th.pos);
      TailGains(m, th, t);
    }
  }

  lemma HeadGains(m: Mem, th: Local, t: nat)
    requires th.Busy? && th.op.Dequeue?
    requires th.pc.ReadHead? || th.pc.ChkHead? || th.pc.ReadNext? || th.pc.ChkHead2? || th.pc.RetEmpty? || th.pc.RetGot?
    ensures var (m', th', _) := Step(m, th, t); Rank(m', th') < Rank(m, th)
  {
  }

  /** tail is only met at head when it lags. */
  lemma TailGains(m: Mem, th: Local, t: nat)
    requires MemInv(m) && ThreadInv(m, th) && th.Busy? && th.op.Dequeue?
    requires th.pc.ReadTail2? || th.pc.PushTail? || th.pc.ReadData? || th.pc.CasHead?
    ensures var (m', th', _) := Step(m, th, t); Rank(m', th') < Rank(m, th)
  {
    if m.tail == th.p { assert th.pos == m.tpos; }
  }

  // ---------------------------------------------------------------- a call that runs on its own

  /** Thread t takes k steps and nothing else happens. */
  function Alone(t: nat, k: nat): seq<Action> { seq(k, _ => Continue(t)) }

  /** The thread is idle, and what happened last is that its call returned. */
  predicate JustReturned(s: State, t: nat) {
    && t < |s.threads| && s.threads[t].Idle?
    && s.trace != [] && s.trace[|s.trace| - 1].Return? && s.trace[|s.trace| - 1].t == t
  }

  predicate UnderWay(s: State, t: nat) { t < |s.threads| && s.threads[t].Busy? }

  lemma OnlyReturnsIdle(m: Mem, th: Local, t: nat)
    requires th.Busy?
    ensures var (_, th', es) := Step(m, th, t); th'.Idle? ==> |es| == 1 && es[0].Return? && es[0].t == t
  {
  }

  lemma StepTowards(n: nat, sched: seq<Action>, t: nat)
    requires UnderWay(Exec(Init(n), sched), t)
    ensures var s, s' := Exec(Init(n), sched), Exec(Init(n), sched + [Continue(t)]);
      t < |s'.threads| && Rank(s'.mem, s'.threads[t]) < Rank(s.mem, s.threads[t]) && (UnderWay(s', t) || JustReturned(s', t))
  {
    var s := Exec(Init(n), sched);
    RunKeeps(n, sched);
    StepGains(s.mem, s.threads[t], t);
    OnlyReturnsIdle(s.mem, s.threads[t], t);
    assert (sched + [Continue(t)])[..|sched|] == sched;
  }

  lemma {:induction false} RunsOut(n: nat, sched: seq<Action>, t: nat) returns (k: nat)
    requires UnderWay(Exec(Init(n), sched), t)
    ensures k <= Rank(Exec(Init(n), sched).mem, Exec(Init(n), sched).threads[t])
    ensures JustReturned(Exec(Init(n), sched + Alone(t, k)), t)
    decreases Rank(Exec(Init(n), sched).mem, Exec(Init(n), sched).threads[t])
  {
    var next := sched + [Continue(t)];
    StepTowards(n, sched, t);
    if UnderWay(Exec(Init(n), next), t) {
      var l := RunsOut(n, next, t);
      k := l + 1;
      assert sched + Alone(t, k) == next + Alone(t, l);
    } else {
      k := 1;
      assert sched + Alone(t, 1) == next;
    }
  }

  /** From every reachable state, a call under way that runs alone has answered after at most 17 instructions. */
  lemma AloneAnswers(n: nat, sched: seq<Action>, t: nat)
    requires UnderWay(Exec(Init(n), sched), t)
    ensures exists k: nat :: k <= 17 && JustReturned(Exec(Init(n), sched + Alone(t, k)), t)
  {
    var k := RunsOut(n, sched, t);
    RankIsSmall(Exec(Init(n), sched).mem, Exec(Init(n), sched).threads[t]);
  }

  // ---------------------------------------------------------------- changes are paid for by calls

  /** An enqueue has yet to link its node, after which tail must be moved; a dequeue has yet to move head. */
  function Unpaid(th: Local): nat {
    if th.Idle? || th.pc.SwingTail? || th.pc.RetEnq? || th.pc.RetEmpty? || th.pc.RetGot? then 0
    else if th.op.Enqueue? then 2 else 1
  }

  /** An instruction changes nothing, or pays for what it changes. */
  lemma StepPays(m: Mem, th: Local, t: nat)
    requires MemInv(m) && ThreadInv(m, th) && th.Busy?
    ensures var (m', th', _) := Step(m, th, t);
      (m' == m && Unpaid(th') <= Unpaid(th)) || Lag(m') + Unpaid(th') < Lag(m) + Unpaid(th)
  {
    if th.pc.CasNext? || th.pc.HelpTail? || th.pc.SwingTail? || th.pc.PushTail? {
      LinkAt(m, th.pos);
      LinkAt(m, m.tpos);
    }
  }

  function RanksOf(m: Mem, threads: seq<Local>): seq<nat> {
    seq(|threads|, t requires 0 <= t < |threads| => Rank(m, threads[t]))
  }

  function DebtsOf(threads: seq<Local>): seq<nat> {
    seq(|threads|, t requires 0 <= t < |threads| => Unpaid(threads[t]))
  }

  function PotentialOf(s: State): nat {
    Potential(RanksOf(s.mem, s.threads), DebtsOf(s.threads), Lag(s.mem), Most)
  }

  lemma ThreadSpends(m: Mem, m': Mem, threads: seq<Local>, t: nat, th': Local)
    requires t < |threads| && Rank(m', th') < Rank(m, threads[t])
    requires (m' == m && Unpaid(th') <= Unpaid(threads[t])) || Lag(m') + Unpaid(th') < Lag(m) + Unpaid(threads[t])
    ensures Potential(RanksOf(m', threads[t := th']), DebtsOf(threads[t := th']), Lag(m'), Most)
          < Potential(RanksOf(m, threads), DebtsOf(threads), Lag(m), Most)
  {
    var threads' := threads[t := th'];
    if m' == m {
      StepSpends(RanksOf(m, threads), DebtsOf(threads), Lag(m), RanksOf(m, threads'), DebtsOf(threads'), Lag(m), Most, t);
    } else {
      forall u | 0 <= u < |threads'| ensures RanksOf(m', threads')[u] <= Most { RankIsSmall(m', threads'[u]); }
      ChangeSpends(RanksOf(m, threads), DebtsOf(threads), Lag(m), RanksOf(m', threads'), DebtsOf(threads'), Lag(m'), Most, t);
    }
  }

  /** An instruction lowers the potential. */
  lemma ContinueSpends(s: State, t: nat)
    requires Inv(s) && t < |s.threads| && s.threads[t].Busy?
    ensures PotentialOf(Apply(s, Continue(t))) < PotentialOf(s)
  {
    var (m', th', _) := Step(s.mem, s.threads[t], t);
    StepPays(s.mem, s.threads[t], t);
    StepGains(s.mem, s.threads[t], t);
    ThreadSpends(s.mem, m', s.threads, t, th');
  }

  /** What a new call may cost. */
  function Cost(n: nat): nat { 14 + 2 * Price(n, Most) }

  /** A new node is none that another thread has read. */
  lemma EnterKeepsRank(m: Mem, op: Op, th: Local)
    requires MemInv(m) && ThreadInv(m, th)
    ensures Rank(Enter(m, op).0, th) == Rank(m, th)
  {
  }

  lemma EnterBuys(m: Mem, m': Mem, threads: seq<Local>, t: nat, th': Local)
    requires t < |threads| && threads[t].Idle? && Rank(m', th') <= 14 && Unpaid(th') <= 2 && Lag(m') == Lag(m)
    requires forall u :: 0 <= u < |threads| ==> Rank(m', threads[u]) == Rank(m, threads[u])
    ensures Potential(RanksOf(m', threads[t := th']), DebtsOf(threads[t := th']), Lag(m'), Most)
         <= Potential(RanksOf(m, threads), DebtsOf(threads), Lag(m), Most) + Cost(|threads|)
  {
    var threads' := threads[t := th'];
    CallBuys(RanksOf(m, threads), DebtsOf(threads), Lag(m), RanksOf(m', threads'), DebtsOf(threads'), Most, t);
    Times(Price(|threads|, Most), Unpaid(th'), 2);
  }

  lemma InvokeBuys(s: State, t: nat, op: Op)
    requires Inv(s) && t < |s.threads| && s.threads[t].Idle?
    ensures PotentialOf(Apply(s, Invoke(t, op))) <= PotentialOf(s) + Cost(|s.threads|)
  {
    var (m', th') := Enter(s.mem, op);
    forall u | 0 <= u < |s.threads| ensures Rank(m', s.threads[u]) == Rank(s.mem, s.threads[u]) {
      EnterKeepsRank(s.mem, op, s.threads[u]);
    }
    EnterBuys(s.mem, m', s.threads, t, th');
  }

  // ---------------------------------------------------------------- whole runs

  predicate IsCall(s: State, act: Action) { act.Invoke? && act.t < |s.threads| && s.threads[act.t].Idle? }
  predicate IsInstruction(s: State, act: Action) { act.Continue? && act.t < |s.threads| && s.threads[act.t].Busy? }

  /** The actions of a run that call an operation, and those that execute an instruction. */
  function Calls(n: nat, sched: seq<Action>): nat {
    if sched == [] then 0
    else
      var before, last := sched[..|sched| - 1], sched[|sched| - 1];
      Calls(n, before) + if IsCall(Exec(Init(n), before), last) then 1 else 0
  }

  function Instructions(n: nat, sched: seq<Action>): nat {
    if sched == [] then 0
    else
      var before, last := sched[..|sched| - 1], sched[|sched| - 1];
      Instructions(n, before) + if IsInstruction(Exec(Init(n), before), last) then 1 else 0
  }

  lemma {:induction false} SameThreads(n: nat, sched: seq<Action>)
    ensures |Exec(Init(n), sched).threads| == n
  {
    if sched != [] { SameThreads(n, sched[..|sched| - 1]); }
  }

  lemma ActionSpends(s: State, act: Action)
    requires Inv(s)
    ensures (if IsInstruction(s, act) then 1 else 0) + PotentialOf(Apply(s, act))
         <= PotentialOf(s) + if IsCall(s, act) then Cost(|s.threads|) else 0
  {
    if IsInstruction(s, act) { ContinueSpends(s, act.t); }
    if IsCall(s, act) { InvokeBuys(s, act.t, act.op); }
  }

  lemma {:induction false} Spent(n: nat, sched: seq<Action>)
    ensures Instructions(n, sched) + PotentialOf(Exec(Init(n), sched)) <= Cost(n) * Calls(n, sched)
  {
    if sched == [] {
      SumZero(RanksOf(Init(n).mem, Init(n).threads));
      SumZero(DebtsOf(Init(n).threads));
    } else {
      var before, last := sched[..|sched| - 1], sched[|sched| - 1];
      Spent(n, before);
      Distribute(Cost(n), Calls(n, before), 1);
      Tally(n, before, last, sched);
    }
  }

  lemma Tally(n: nat, before: seq<Action>, last: Action, sched: seq<Action>)
    requires sched != [] && before == sched[..|sched| - 1] && last == sched[|sched| - 1]
    ensures var s, s' := Exec(Init(n), before), Exec(Init(n), sched); var calls, steps := Calls(n, before), Instructions(n, before);
      && calls <= Calls(n, sched) <= calls + 1
      && Instructions(n, sched) + PotentialOf(s') <= steps + PotentialOf(s) + if Calls(n, sched) == calls then 0 else Cost(n)
  {
    RunKeeps(n, before);
    SameThreads(n, before);
    ActionSpends(Exec(Init(n), before), last);
  }

  /** The queue is lock-free: in a run of n threads with c calls there are at most (34 n + 16) c instructions. */
  lemma QueueIsLockFree(n: nat, sched: seq<Action>)
    ensures Instructions(n, sched) <= (34 * n + 16) * Calls(n, sched)
  {
    Spent(n, sched);
    assert Cost(n) == 34 * n + 16;
  }
}
