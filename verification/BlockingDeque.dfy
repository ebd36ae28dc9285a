/**
 The blocking deque of bdeque.h: a lock-free deque, a mutex and a condition variable.

 The deque itself is taken as the sequence that module DequeResults shows it to be, left end first.  Pushing is
 done with the mutex held; popping is not.  wait() releases the mutex and parks the thread in one step, and
 a parked thread may also wake for no reason.
 */
module BlockingDeque {
  import opened Linearizability
  import D = DequeSpecs

  /** The calls of the lock-free deque, and the two that wait. */
  datatype Op = Plain(op: D.Op) | Take(d: D.Side)

  /** A take does what a pop does; that it never answers that there is nothing is up to its steps. */
  function Does(op: Op): D.Op { match op case Plain(o) => o case Take(d) => D.Pop(d) }

  predicate IsPush(op: Op) { Does(op).Push? }
  predicate IsPop(op: Op) { op.Plain? && op.op.Pop? }

  function BlockingSpec(a: seq<int>, op: Op): (seq<int>, D.Ret) { D.DequeSpec(a, Does(op)) }

  datatype Lock = Unlocked | HeldBy(t: nat)

  datatype Mem = Mem(content: seq<int>, lock: Lock, parked: set<nat>)

  datatype PC =
    | PushLock | PushDo | PushNotify | PushUnlock | RetPush
    | TakePop | TakeLock | TakeCheck | TakeWait | Parked | TakeUnlock
    | PopDo | RetEmpty | RetGot

  datatype Local = Idle | Busy(op: Op, pc: PC, got: int)

  datatype State = State(mem: Mem, threads: seq<Local>, trace: seq<Event<Op, D.Ret>>)
  datatype Action = Invoke(t: nat, op: Op) | Continue(t: nat) | WakeUp(t: nat)

  function Init(n: nat): State {
    State(Mem([], Unlocked, {}), seq(n, _ => Idle), [])
  }

  /** Acquire the mutex and go on to pc, or stay. */
  function Acquire(m: Mem, th: Local, t: nat, pc: PC): (Mem, Local, seq<Event<Op, D.Ret>>)
    requires th.Busy?
  {
    if m.lock == Unlocked then (m.(lock := HeldBy(t)), th.(pc := pc), []) else (m, th, [])
  }

  function Step(m: Mem, th: Local, t: nat): (Mem, Local, seq<Event<Op, D.Ret>>)
    requires th.Busy?
  {
    var (content, ret) := BlockingSpec(m.content, th.op);
    match th.pc
    case PushLock => Acquire(m, th, t, PushDo)
    case PushDo => (m.(content := content), th.(pc := PushNotify), [Commit(t, th.op, ret)])
    case PushNotify => (m.(parked := {}), th.(pc := PushUnlock), [])
    case PushUnlock => (m.(lock := Unlocked), th.(pc := RetPush), [])
    case RetPush => (m, Idle, [Return(t, D.Pushed)])
    case TakePop =>
      if ret.Got? then (m.(content := content), th.(pc := RetGot, got := ret.v), [Commit(t, th.op, ret)])
      else (m, th.(pc := TakeLock), [])
    case TakeLock => Acquire(m, th, t, TakeCheck)
    case TakeCheck => (m, th.(pc := if m.content == [] then TakeWait else TakeUnlock), [])
    case TakeWait => (m.(lock := Unlocked, parked := m.parked + {t}), th.(pc := Parked), [])
    case Parked => if t in m.parked then (m, th, []) else Acquire(m, th, t, TakeUnlock)
    case TakeUnlock => (m.(lock := Unlocked), th.(pc := TakePop), [])
    case PopDo =>
      if ret.Got? then (m.(content := content), th.(pc := RetGot, got := ret.v), [Commit(t, th.op, ret)])
      else (m, th.(pc := RetEmpty), [Commit(t, th.op, ret)])
    case RetEmpty => (m, Idle, [Return(t, D.Empty)])
    case RetGot => (m, Idle, [Return(t, D.Got(th.got))])
  }

  function Start(op: Op): Local {
    Busy(op, if op.Take? then TakePop else if op.op.Push? then PushLock else PopDo, 0)
  }

  function Apply(s: State, act: Action): State {
    var t := act.t;
    if t >= |s.threads| then s
    else
      match act
      case Invoke(_, op) =>
        if s.threads[t].Idle? then s.(threads := s.threads[t := Start(op)], trace := s.trace + [Call(t, op)]) else s
      case WakeUp(_) => s.(mem := s.mem.(parked := s.mem.parked - {t}))
      case Continue(_) =>
        if s.threads[t].Busy? then
          var (m', th', es) := Step(s.mem, s.threads[t], t);
          State(m', s.threads[t := th'], s.trace + es)
        else s
  }

  function Exec(s: State, sched: seq<Action>): State {
    if sched == [] then s else Apply(Exec(s, sched[..|sched| - 1]), sched[|sched| - 1])
  }

  // ---------------------------------------------------------------- invariant

  /** The instructions between lock and unlock. */
  predicate Inside(th: Local) {
    th.Busy? && (th.pc.PushDo? || th.pc.PushNotify? || th.pc.PushUnlock? || th.pc.TakeCheck? || th.pc.TakeWait? || th.pc.TakeUnlock?)
  }

  predicate LocalOk(th: Local) {
    th.Busy? ==>
      match th.pc
      case PushLock => IsPush(th.op)
      case PushDo => IsPush(th.op)
      case PushNotify => IsPush(th.op)
      case PushUnlock => IsPush(th.op)
      case RetPush => IsPush(th.op)
      case PopDo => IsPop(th.op)
      case RetEmpty => IsPop(th.op)
      case RetGot => !IsPush(th.op)
      case _ => th.op.Take?
  }

  predicate ThreadOk(m: Mem, th: Local, t: nat) {
    && LocalOk(th)
    && (Inside(th) <==> m.lock == HeldBy(t))
    && (t in m.parked ==> th.Busy? && th.pc.Parked?)
    && (th.Busy? && th.pc.TakeWait? ==> m.content == [])
  }

  /** While somebody is parked, the deque is empty, or a pusher is about to notify. */
  predicate ParkedOk(m: Mem, threads: seq<Local>) {
    m.parked != {} && m.content != [] ==>
      m.lock.HeldBy? && m.lock.t < |threads| && threads[m.lock.t].Busy? && threads[m.lock.t].pc.PushNotify?
  }

  ghost predicate ThreadsInv(m: Mem, threads: seq<Local>) {
    && (forall t :: 0 <= t < |threads| ==> ThreadOk(m, threads[t], t))
    && (m.lock.HeldBy? ==> m.lock.t < |threads|)
    && (forall t :: t in m.parked ==> 0 <= t < |threads|)
    && ParkedOk(m, threads)
  }

  function PhaseNow(th: Local): Phase<Op, D.Ret> {
    if th.Idle? then Quiet
    else
      match th.pc
      case PushNotify => Done(th.op, D.Pushed)
      case PushUnlock => Done(th.op, D.Pushed)
      case RetPush => Done(th.op, D.Pushed)
      case RetEmpty => Done(th.op, D.Empty)
      case RetGot => Done(th.op, D.Got(th.got))
      case _ => Pending(th.op, {})
  }

  ghost predicate Inv(s: State) {
    && ThreadsInv(s.mem, s.threads)
    && Legal(BlockingSpec, [], s.trace) && ValueAfter(BlockingSpec, [], s.trace) == s.mem.content
    && forall t: nat :: PhaseOf(s.trace, t) == if t < |s.threads| then PhaseNow(s.threads[t]) else Quiet
  }

  lemma StepKeepsThreads(m: Mem, threads: seq<Local>, t: nat)
    requires ThreadsInv(m, threads) && t < |threads| && threads[t].Busy?
    ensures var (m', th', es) := Step(m, threads[t], t); ThreadsInv(m', threads[t := th'])
  {
    var (m', th', es) := Step(m, threads[t], t);
    var threads' := threads[t := th'];
    assert ThreadOk(m, threads[t], t);
    forall u | 0 <= u < |threads'| ensures ThreadOk(m', threads'[u], u) { assert ThreadOk(m, threads[u], u); }
    if m'.parked != {} && m'.content != [] && m.lock.HeldBy? { assert ThreadOk(m, threads[m.lock.t], m.lock.t); }
  }

  lemma StepExplained(m: Mem, th: Local, t: nat)
    requires th.Busy? && LocalOk(th)
    ensures var (m', th', es) := Step(m, th, t);
      if es == [] then m'.content == m.content && PhaseNow(th') == PhaseNow(th)
      else
        && |es| == 1 && es[0].t == t && Advance(PhaseNow(th), es[0]) == PhaseNow(th')
        && (if es[0].Commit? then BlockingSpec(m.content, es[0].op) == (m'.content, es[0].ret)
            else es[0].Return? && m'.content == m.content)
  {
  }

  lemma ContinueKeeps(s: State, t: nat)
    requires Inv(s) && t < |s.threads| && s.threads[t].Busy?
    ensures Inv(Apply(s, Continue(t)))
  {
    assert ThreadOk(s.mem, s.threads[t], t);
    StepKeepsThreads(s.mem, s.threads, t);
    StepExplained(s.mem, s.threads[t], t);
    var (m', th', es) := Step(s.mem, s.threads[t], t);
    if es == [] { assert s.trace + es == s.trace; }
    else {
      assert es == [es[0]];
      AppendEvent(BlockingSpec, [], s.trace, es[0]);
    }
  }

  lemma InvokeKeeps(s: State, t: nat, op: Op)
    requires Inv(s) && t < |s.threads| && s.threads[t].Idle?
    ensures Inv(Apply(s, Invoke(t, op)))
  {
    var threads' := s.threads[t := Start(op)];
    forall u | 0 <= u < |threads'| ensures ThreadOk(s.mem, threads'[u], u) { assert ThreadOk(s.mem, s.threads[u], u); }
    AppendEvent(BlockingSpec, [], s.trace, Call(t, op));
  }

  lemma WakeUpKeeps(s: State, t: nat)
    requires Inv(s)
    ensures Inv(Apply(s, WakeUp(t)))
  {
    var m' := s.mem.(parked := s.mem.parked - {t});
    forall u | 0 <= u < |s.threads| ensures ThreadOk(m', s.threads[u], u) { assert ThreadOk(s.mem, s.threads[u], u); }
  }

  lemma ApplyKeeps(s: State, act: Action)
    requires Inv(s)
    ensures Inv(Apply(s, act))
  {
    if act.t < |s.threads| {
      match act {
        case Invoke(t, op) => if s.threads[t].Idle? { InvokeKeeps(s, t, op); }
        case WakeUp(t) => WakeUpKeeps(s, t);
        case Continue(t) => if s.threads[t].Busy? { ContinueKeeps(s, t); }
      }
    }
  }

  lemma {:induction false} RunKeeps(n: nat, sched: seq<Action>)
    ensures Inv(Exec(Init(n), sched))
  {
    if sched != [] {
      RunKeeps(n, sched[..|sched| - 1]);
      ApplyKeeps(Exec(Init(n), sched[..|sched| - 1]), sched[|sched| - 1]);
    }
  }

  /** No step of a take commits that there is nothing. */
  ghost predicate TakesAnswer(tr: seq<Event<Op, D.Ret>>) {
    forall i :: 0 <= i < |tr| && tr[i].Commit? && tr[i].op.Take? ==> tr[i].ret.Got?
  }

  lemma {:induction false} TakeNeverAnswersEmpty(n: nat, sched: seq<Action>)
    ensures TakesAnswer(Exec(Init(n), sched).trace)
  {
    if sched != [] {
      var before := sched[..|sched| - 1];
      TakeNeverAnswersEmpty(n, before);
      RunKeeps(n, before);
      ApplyAnswers(Exec(Init(n), before), sched[|sched| - 1]);
    }
  }

  lemma ApplyAnswers(s: State, act: Action)
    requires Inv(s) && TakesAnswer(s.trace)
    ensures TakesAnswer(Apply(s, act).trace)
  {
    if act.t < |s.threads| { assert ThreadOk(s.mem, s.threads[act.t], act.t); }
  }

  // ---------------------------------------------------------------- main results

  /** No wakeup is lost: whenever a taker is parked and no pusher holds the mutex, the deque is empty,
      whatever pops go on meanwhile. */
  ghost predicate NoLostWakeup(s: State) {
    s.mem.parked != {} && !PusherInside(s) ==> s.mem.content == []
  }

  /** A pusher holds the mutex. */
  predicate PusherInside(s: State) {
    var l := s.mem.lock;
    l.HeldBy? && l.t < |s.threads| && s.threads[l.t].Busy? && IsPush(s.threads[l.t].op)
  }

  lemma WakeupsAreNotLost(n: nat, sched: seq<Action>)
    ensures NoLostWakeup(Exec(Init(n), sched))
  {
    RunKeeps(n, sched);
    InvNoLostWakeup(Exec(Init(n), sched));
  }

  lemma InvNoLostWakeup(s: State)
    requires Inv(s)
    ensures NoLostWakeup(s)
  {
    if s.mem.parked != {} && s.mem.content != [] { assert ThreadOk(s.mem, s.threads[s.mem.lock.t], s.mem.lock.t); }
  }

  /** Thread t can take a step that does something. */
  predicate Enabled(s: State, t: nat) {
    && t < |s.threads| && s.threads[t].Busy?
    && (s.threads[t].pc.PushLock? || s.threads[t].pc.TakeLock? ==> s.mem.lock == Unlocked)
    && (s.threads[t].pc.Parked? ==> t !in s.mem.parked && s.mem.lock == Unlocked)
  }

  /** As long as there is an element, a call that is under way is not stuck: some thread can go on. */
  lemma NobodyIsStuck(n: nat, sched: seq<Action>, t: nat)
    requires var s := Exec(Init(n), sched); s.mem.content != [] && t < |s.threads| && s.threads[t].Busy?
    ensures exists u: nat :: Enabled(Exec(Init(n), sched), u)
  {
    RunKeeps(n, sched);
    SomeoneGoesOn(Exec(Init(n), sched), t);
  }

  lemma SomeoneGoesOn(s: State, t: nat)
    requires Inv(s) && s.mem.content != [] && t < |s.threads| && s.threads[t].Busy?
    ensures exists u: nat :: Enabled(s, u)
  {
    if s.mem.lock.HeldBy? {
      assert ThreadOk(s.mem, s.threads[s.mem.lock.t], s.mem.lock.t);
      assert Enabled(s, s.mem.lock.t);
    } else {
      assert s.mem.parked == {};
      assert Enabled(s, t);
    }
  }

  lemma BlockingDequeIsLinearizable(n: nat, sched: seq<Action>)
    ensures Linearizable(BlockingSpec, [], Exec(Init(n), sched).trace)
  {
    RunKeeps(n, sched);
    EffectsLinearize(BlockingSpec, [], Exec(Init(n), sched).trace);
  }
}
