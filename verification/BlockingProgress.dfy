/**
 That the calls of the blocking deque answer: whoever has the mutex gives it back soon, and with the mutex free a call
 that runs on its own answers, a take as long as there is an element to be had.
 */
module BlockingProgress {
  import opened Linearizability
  import opened BlockingDeque

  /** Instructions to the answer with the mutex free or held by this thread, and an element there for a take. */
  function Rank(th: Local): nat {
    if th.Idle? then 0
    else
      match th.pc
      case PushLock => 5
      case PushDo => 4
      case PushNotify => 3
      case PushUnlock => 2
      case TakeLock => 5
      case TakeCheck => 4
      case TakeWait => 0
      case Parked => 4
      case TakeUnlock => 3
      case TakePop => 2
      case PopDo => 2
      case _ => 1
  }

  /** Nothing keeps thread t from answering. */
  predicate Free(s: State, t: nat) {
    && t < |s.threads| && s.threads[t].Busy?
    && (s.mem.lock == Unlocked || s.mem.lock == HeldBy(t))
    && (s.threads[t].op.Take? && !s.threads[t].pc.RetGot? ==> s.mem.content != [])
  }

  predicate JustReturned(s: State, t: nat) {
    && t < |s.threads| && s.threads[t].Idle?
    && s.trace != [] && s.trace[|s.trace| - 1].Return? && s.trace[|s.trace| - 1].t == t
  }

  lemma FreeStep(s: State, t: nat)
    requires Inv(s) && Free(s, t)
    ensures var s' := Apply(s, Continue(t)); (Free(s', t) && Rank(s'.threads[t]) < Rank(s.threads[t])) || JustReturned(s', t)
  {
    assert ThreadOk(s.mem, s.threads[t], t);
    if s.mem.parked != {} && s.mem.content != [] { assert s.mem.lock == HeldBy(t); }
  }

  /** Thread t takes k steps and nothing else happens. */
  function Alone(t: nat, k: nat): seq<Action> { seq(k, _ => Continue(t)) }

  lemma StepTowards(n: nat, sched: seq<Action>, t: nat)
    requires Free(Exec(Init(n), sched), t)
    ensures var s, s' := Exec(Init(n), sched), Exec(Init(n), sched + [Continue(t)]);
      (Free(s', t) && Rank(s'.threads[t]) < Rank(s.threads[t])) || JustReturned(s', t)
  {
    RunKeeps(n, sched);
    FreeStep(Exec(Init(n), sched), t);
    assert (sched + [Continue(t)])[..|sched|] == sched;
  }

  lemma {:induction false} RunsOut(n: nat, sched: seq<Action>, t: nat) returns (k: nat)
    requires Free(Exec(Init(n), sched), t)
    ensures k <= Rank(Exec(Init(n), sched).threads[t]) && JustReturned(Exec(Init(n), sched + Alone(t, k)), t)
    decreases Rank(Exec(Init(n), sched).threads[t])
  {
    var next := sched + [Continue(t)];
    StepTowards(n, sched, t);
    if JustReturned(Exec(Init(n), next), t) {
      RankPositive(n, sched, t);
      k := 1;
      assert sched + Alone(t, 1) == next;
    } else {
      var l := RunsOut(n, next, t);
      k := l + 1;
      assert sched + Alone(t, k) == next + Alone(t, l);
    }
  }

  lemma RankPositive(n: nat, sched: seq<Action>, t: nat)
    requires Free(Exec(Init(n), sched), t)
    ensures Rank(Exec(Init(n), sched).threads[t]) > 0
  {
    RunKeeps(n, sched);
    var s := Exec(Init(n), sched);
    assert ThreadOk(s.mem, s.threads[t], t);
  }

  /** With the mutex free, a call that runs alone has answered after at most 5 instructions; a take if there is an element. */
  lemma AloneAnswers(n: nat, sched: seq<Action>, t: nat)
    requires Free(Exec(Init(n), sched), t)
    ensures exists k: nat :: k <= 5 && JustReturned(Exec(Init(n), sched + Alone(t, k)), t)
  {
    var k := RunsOut(n, sched, t);
  }

  // ---------------------------------------------------------------- the mutex

  function ToRelease(th: Local): nat {
    if th.Idle? then 0
    else
      match th.pc
      case PushDo => 3
      case PushNotify => 2
      case PushUnlock => 1
      case TakeCheck => 2
      case TakeWait => 1
      case TakeUnlock => 1
      case _ => 0
  }

  lemma HolderStep(s: State, u: nat)
    requires Inv(s) && s.mem.lock == HeldBy(u)
    ensures u < |s.threads| && s.threads[u].Busy? && ToRelease(s.threads[u]) > 0
    ensures var s' := Apply(s, Continue(u));
      && |s'.mem.content| >= |s.mem.content| && |s'.threads| == |s.threads|
      && (forall t :: 0 <= t < |s.threads| && t != u ==> s'.threads[t] == s.threads[t])
      && (s'.mem.lock == Unlocked || (s'.mem.lock == HeldBy(u) && ToRelease(s'.threads[u]) < ToRelease(s.threads[u])))
  {
    assert ThreadOk(s.mem, s.threads[u], u);
  }

  /** Whoever holds the mutex, running alone, gives it back within 3 instructions, takes no element away meanwhile, and
      leaves every other thread where it is. */
  lemma {:induction false} HolderReleases(n: nat, sched: seq<Action>, u: nat) returns (k: nat)
    requires Exec(Init(n), sched).mem.lock == HeldBy(u)
    ensures u < |Exec(Init(n), sched).threads| && k <= ToRelease(Exec(Init(n), sched).threads[u]) <= 3
    ensures var s, s' := Exec(Init(n), sched), Exec(Init(n), sched + Alone(u, k));
      && s'.mem.lock == Unlocked && |s'.mem.content| >= |s.mem.content| && |s'.threads| == |s.threads|
      && forall t :: 0 <= t < |s.threads| && t != u ==> s'.threads[t] == s.threads[t]
    decreases if u < |Exec(Init(n), sched).threads| then ToRelease(Exec(Init(n), sched).threads[u]) else 0
  {
    var next := sched + [Continue(u)];
    RunKeeps(n, sched);
    HolderStep(Exec(Init(n), sched), u);
    assert next[..|sched|] == sched;
    if Exec(Init(n), next).mem.lock == Unlocked {
      k := 1;
      assert sched + Alone(u, 1) == next;
    } else {
      var l := HolderReleases(n, next, u);
      k := l + 1;
      assert sched + Alone(u, k) == next + Alone(u, l);
    }
  }

  /** j instructions of u, and then k of t, finish the call of t. */
  predicate Finishes(n: nat, sched: seq<Action>, t: nat, u: nat, j: nat, k: nat) {
    j + k <= 8 && JustReturned(Exec(Init(n), sched + Alone(u, j) + Alone(t, k)), t)
  }

  /** So every call under way, a take if there is an element, can be finished within 8 instructions of its own and of whoever
      holds the mutex. */
  lemma CallsCanFinish(n: nat, sched: seq<Action>, t: nat)
    requires var s := Exec(Init(n), sched); t < |s.threads| && s.threads[t].Busy? && (s.threads[t].op.Take? ==> s.mem.content != [])
    ensures exists u: nat, j: nat, k: nat :: Finishes(n, sched, t, u, j, k)
  {
    var lock := Exec(Init(n), sched).mem.lock;
    if lock.HeldBy? && lock.t != t {
      var j, k := AfterRelease(n, sched, t, lock.t);
      assert Finishes(n, sched, t, lock.t, j, k);
    } else {
      var k := RightAway(n, sched, t);
      assert Finishes(n, sched, t, t, 0, k);
    }
  }

  lemma RightAway(n: nat, sched: seq<Action>, t: nat) returns (k: nat)
    requires Free(Exec(Init(n), sched), t)
    ensures Finishes(n, sched, t, t, 0, k)
  {
    k := RunsOut(n, sched, t);
    assert sched + Alone(t, 0) == sched;
  }

  lemma AfterRelease(n: nat, sched: seq<Action>, t: nat, u: nat) returns (j: nat, k: nat)
    requires var s := Exec(Init(n), sched); t < |s.threads| && s.threads[t].Busy? && (s.threads[t].op.Take? ==> s.mem.content != [])
    requires Exec(Init(n), sched).mem.lock == HeldBy(u) && u != t
    ensures Finishes(n, sched, t, u, j, k)
  {
    j := HolderReleases(n, sched, u);
    assert Free(Exec(Init(n), sched + Alone(u, j)), t);
    k := RunsOut(n, sched + Alone(u, j), t);
  }
}
