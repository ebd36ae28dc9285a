/**
 That the calls of the hash set answer: a call that runs on its own initialises the parents of its bucket that need it,
 finishes its list calls, and returns.
 */
module HashSetProgress {
  import opened Linearizability
  import opened HashSet
  import opened HashSetProof
  import opened HashSetResults
  import L = ListCore
  import P = ListProof
  import S = SplitOrder
  import G = ListProgress

  /** Where a call is: choosing its bucket, going down its parents, initialising them one after the other, starting at its
      own cell, in its list call, and after it. */
  function Stage(th: Local): nat
    requires th.Busy?
  {
    if th.pc.ReadSize? then 6
    else if Asking(th.pc) then
      match th.goal
      case TestBucket => 5
      case TestParent => 4
      case NeedBucket => 2
      case StartAt => 2
      case _ => 3
    else if Setting(th.pc) || th.pc.RunDummy? || th.pc.RunCheck? then 3
    else if th.pc.RunList? then 1
    else 0
  }

  /** How far the bucket on top of the stack is from being initialised. */
  function ToInitialised(th: Local): nat
    requires th.Busy?
  {
    match th.pc
    case RunDummy => 7
    case RunCheck => 6
    case SetSegment => 5
    case SetNewSegment => 4
    case SetCell => 3
    case _ =>
      match th.goal
      case NeedParent => 9
      case StartParent => 8
      case CheckSet => 2
      case _ => 1
  }

  /** Going down, the bucket gets smaller; coming back, the stack gets shorter. */
  function Depth(th: Local): nat
    requires th.Busy?
  {
    match Stage(th)
    case 4 => Top(th.stack)
    case 3 => 10 * |th.stack| + ToInitialised(th)
    case 2 => if th.goal.NeedBucket? then 1 else 0
    case _ => 0
  }

  function Within(m: Mem, th: Local): nat
    requires th.Busy?
  {
    if Running(th.pc) then G.Rank(m.list, th.call)
    else
      match th.pc
      case GetSize => 5
      case GetSegment => 4
      case TestSegment => 3
      case NewSegment => 2
      case GetCell => 1
      case ReadOldSize => 5
      case IncCount => 4
      case ReadCount => 3
      case Grow => 2
      case DecCount => 2
      case Leave => 1
      case _ => 0
  }

  predicate Nearer(m: Mem, th: Local, m': Mem, th': Local)
    requires th.Busy? && th'.Busy?
  {
    || Stage(th') < Stage(th)
    || (Stage(th') == Stage(th) && Depth(th') < Depth(th))
    || (Stage(th') == Stage(th) && Depth(th') == Depth(th) && Within(m', th') < Within(m, th))
  }

  ghost predicate Gains(hash: int -> int, m: Mem, th: Local, t: nat)
    requires th.Busy?
  {
    var (m', th', es) := Step(hash, m, th, t);
    if th'.Idle? then |es| == 1 && es[0].Return? && es[0].t == t else th'.pc.Crash? || Nearer(m, th, m', th')
  }

  lemma AskGains(hash: int -> int, m: Mem, th: Local, t: nat)
    requires th.Busy? && m.size > 0
    requires th.pc.ReadSize? || (Asking(th.pc) && !th.pc.GetCell?) || Setting(th.pc)
    ensures Gains(hash, m, th, t)
  {
  }

  lemma EndGains(hash: int -> int, m: Mem, th: Local, t: nat)
    requires th.Busy? && (Counting(th.pc) || th.pc.Leave?)
    ensures Gains(hash, m, th, t)
  {
  }

  lemma CellGains(hash: int -> int, m: Mem, th: Local, t: nat)
    requires th.Busy? && th.pc.GetCell? && (th.goal.TestParent? ==> Top(th.stack) > 0)
    requires th.goal.CheckDone? || th.goal.NeedParent? ==> th.stack != []
    ensures Gains(hash, m, th, t)
  {
    if th.goal.TestParent? { S.ParentSmaller(Top(th.stack)); }
  }

  lemma AnswerGains(hash: int -> int, m: Mem, th: Local, t: nat)
    requires th.Busy? && Running(th.pc) && th.call.pc.Answer?
    ensures Gains(hash, m, th, t)
  {
    if th.pc.RunDummy? { DummyGains(hash, m, th, t); }
  }

  lemma DummyGains(hash: int -> int, m: Mem, th: Local, t: nat)
    requires th.Busy? && th.pc.RunDummy? && th.call.pc.Answer?
    ensures Gains(hash, m, th, t)
  {
  }

  lemma CallGains(hash: int -> int, m: Mem, th: Local, t: nat)
    requires th.Busy? && Running(th.pc) && !th.call.pc.Answer? && G.Gains(m.list, th.call)
    ensures Gains(hash, m, th, t)
  {
    var (list', call', e) := L.Step(m.list, th.call);
    GoesOnNearer(m, th, m.(list := list'), th.(call := call'));
    StepIsCall(hash, m, th, t);
  }

  lemma GoesOnNearer(m: Mem, th: Local, m': Mem, th': Local)
    requires th.Busy? && th'.Busy? && Running(th.pc) && th' == th.(call := th'.call) && G.Rank(m'.list, th'.call) < G.Rank(m.list, th.call)
    ensures Nearer(m, th, m', th')
  {
  }

  /** The part of a thread's invariant that counts here. */
  lemma StackFacts(hash: int -> int, m: Mem, th: Local, t: nat)
    requires MemInv(hash, m) && th.Busy? && ThreadInv(hash, m, th, t)
    ensures m.size > 0 && !th.pc.Crash?
    ensures th.pc.GetCell? && th.goal.TestParent? ==> Top(th.stack) > 0
    ensures th.pc.GetCell? && (th.goal.CheckDone? || th.goal.NeedParent?) ==> th.stack != []
  {
  }

  /** Each instruction brings the call nearer to its answer, or returns. */
  lemma StepGains(hash: int -> int, m: Mem, th: Local, t: nat)
    requires MemInv(hash, m) && th.Busy? && ThreadInv(hash, m, th, t)
    ensures Gains(hash, m, th, t)
  {
    StackFacts(hash, m, th, t);
    if Running(th.pc) {
      if th.call.pc.Answer? { AnswerGains(hash, m, th, t); }
      else {
        G.StepGains(m.list, th.call, t);
        CallGains(hash, m, th, t);
      }
    }
    else if th.pc.GetCell? { CellGains(hash, m, th, t); }
    else if Counting(th.pc) || th.pc.Leave? { EndGains(hash, m, th, t); }
    else { AskGains(hash, m, th, t); }
  }

  // ---------------------------------------------------------------- a call that runs on its own

  /** Thread t takes k steps and nothing else happens. */
  function Alone(t: nat, k: nat): seq<Action> { seq(k, _ => Continue(t)) }

  /** The thread is idle, and what happened last is that its call returned. */
  predicate JustReturned(s: State, t: nat) {
    && t < |s.threads| && s.threads[t].Idle?
    && s.trace != [] && s.trace[|s.trace| - 1].Return? && s.trace[|s.trace| - 1].t == t
  }

  predicate UnderWay(s: State, t: nat) { t < |s.threads| && s.threads[t].Busy? }

  lemma NeverCrashes(hash: int -> int, s: State, t: nat)
    requires Inv(hash, s) && UnderWay(s, t)
    ensures !s.threads[t].pc.Crash?
  {
    StackFacts(hash, s.mem, s.threads[t], t);
  }

  lemma ApplyTowards(hash: int -> int, s: State, t: nat, s': State)
    requires UnderWay(s, t) && Gains(hash, s.mem, s.threads[t], t) && s' == Apply(hash, s, Continue(t))
    requires UnderWay(s', t) ==> !s'.threads[t].pc.Crash?
    ensures JustReturned(s', t) || (UnderWay(s', t) && Nearer(s.mem, s.threads[t], s'.mem, s'.threads[t]))
  {
    var (m', th', es) := Step(hash, s.mem, s.threads[t], t);
    ApplyIs(hash, s, t, m', th', es);
  }

  lemma StepTowards(hash: int -> int, n: nat, k: nat, load: real, sched: seq<Action>, t: nat)
    requires HashOk(hash, k + 9) && k <= 22 && UnderWay(Exec(hash, Init(n, k, load), sched), t)
    ensures var s, s' := Exec(hash, Init(n, k, load), sched), Exec(hash, Init(n, k, load), sched + [Continue(t)]);
      JustReturned(s', t) || (UnderWay(s', t) && Nearer(s.mem, s.threads[t], s'.mem, s'.threads[t]))
  {
    var s, next := Exec(hash, Init(n, k, load), sched), sched + [Continue(t)];
    var s' := Exec(hash, Init(n, k, load), next);
    assert next[..|sched|] == sched;
    RunKeeps(hash, n, k, load, sched);
    StepGains(hash, s.mem, s.threads[t], t);
    RunKeeps(hash, n, k, load, next);
    if UnderWay(s', t) { NeverCrashes(hash, s', t); }
    ApplyTowards(hash, s, t, s');
  }

  lemma {:induction false} RunsOut(hash: int -> int, n: nat, k: nat, load: real, sched: seq<Action>, t: nat, m: Mem, th: Local)
    returns (j: nat, whole: seq<Action>)
    requires HashOk(hash, k + 9) && k <= 22 && UnderWay(Exec(hash, Init(n, k, load), sched), t)
    requires th.Busy? && m == Exec(hash, Init(n, k, load), sched).mem && th == Exec(hash, Init(n, k, load), sched).threads[t]
    ensures whole == sched + Alone(t, j) && JustReturned(Exec(hash, Init(n, k, load), whole), t)
    decreases Stage(th), Depth(th), Within(m, th)
  {
    var next := sched + [Continue(t)];
    StepTowards(hash, n, k, load, sched, t);
    var s' := Exec(hash, Init(n, k, load), next);
    if JustReturned(s', t) {
      j, whole := 1, next;
      assert whole == sched + Alone(t, 1);
    } else {
      var i;
      i, whole := RunsOut(hash, n, k, load, next, t, s'.mem, s'.threads[t]);
      j := i + 1;
      assert sched + Alone(t, j) == next + Alone(t, i);
    }
  }

  /** From every reachable state, a call under way that runs alone answers, whatever buckets other calls have left to be
      initialised. */
  lemma AloneAnswers(hash: int -> int, n: nat, k: nat, load: real, sched: seq<Action>, t: nat)
    requires HashOk(hash, k + 9) && k <= 22 && UnderWay(Exec(hash, Init(n, k, load), sched), t)
    ensures exists j: nat :: JustReturned(Exec(hash, Init(n, k, load), sched + Alone(t, j)), t)
  {
    var s := Exec(hash, Init(n, k, load), sched);
    var j, whole := RunsOut(hash, n, k, load, sched, t, s.mem, s.threads[t]);
  }
}
