/**
 The elimination-backoff stack behaves as a stack, has every node in one place, delivers each once, and stays
 inside its collision arrays until its counter has wrapped.
 */
module EBStackResults {
  import opened Linearizability
  import opened StackSpecs
  import opened CppInts
  import opened Sequences
  import opened EBStack
  import opened EBStackProof

  /** In every interleaving, with eliminations, the calls behave as if each took effect at once on a LIFO sequence. */
  lemma EBStackIsLinearizable(n: nat, k: nat, sched: seq<Action>)
    requires k > 0
    ensures Linearizable(StackSpec, [], Exec(Init(n, k), sched).trace)
  {
    RunKeeps(n, k, sched);
    InvLinearizes(Exec(Init(n, k), sched));
  }

  lemma InvLinearizes(s: State)
    requires Inv(s)
    ensures Linearizable(StackSpec, [], s.trace)
  {
    forall t: nat ensures !PhaseOf(s.trace, t).Broken? {
      if t < |s.mem.phase| { NotBroken(s.mem, s.threads[t], t); }
    }
    EffectsLinearize(StackSpec, [], s.trace);
  }

  lemma NotBroken(m: Mem, th: Local, t: nat)
    requires ThreadInv(m, th, t)
    ensures t < |m.phase| && !m.phase[t].Broken?
  {
  }

  // ---------------------------------------------------------------- where nodes are

  /** The thread holds node p, which it has not pushed yet. */
  predicate Holds(th: Local, p: Ptr) {
    && th.Busy? && th.op.Push? && th.node == p
    && (InPushCall(th.pc) || th.pc.PushCas? || th.pc.Crash?)
  }

  /** The thread has been given node p by a slot or by the stack. */
  predicate Given(th: Local, p: Ptr) {
    th.Busy? && (th.pc.PopData? || th.pc.RetPop?) && th.p == p
  }

  function ThreadAt(threads: seq<Local>, t: nat): Local { if t < |threads| then threads[t] else Idle }

  /** Every node is in exactly one place: its pusher's hands, the stack, one slot, or one popper's result.  own says
      which, and stack, slots and the locals of the threads agree. */
  ghost predicate OnePlace(s: State) {
    var m := s.mem;
    && Distinct(m.stack)
    && forall p :: 0 < p < |m.own| ==>
      && (p in m.stack <==> m.own[p] == OnStack)
      && (forall i :: 0 <= i < |m.push| ==> (m.push[i] == Node(p) <==> m.own[p] == InPush(i)))
      && (forall i :: 0 <= i < |m.pop| ==> (m.pop[i] == Node(p) <==> m.own[p] == InPop(i)))
      && (forall t: nat :: Holds(ThreadAt(s.threads, t), p) <==> m.own[p] == Hand(t))
      && (forall t: nat :: Given(ThreadAt(s.threads, t), p) ==> m.own[p] == Taken(t))
  }

  /** A popper has taken effect with the value of the node it has been given, and answers it. */
  ghost predicate AnswersNode(s: State) {
    forall t :: 0 <= t < |s.threads| ==>
      var th := s.threads[t];
      th.Busy? && (th.pc.PopData? || th.pc.RetPop?) ==>
        && PhaseOf(s.trace, t) == Done(Pop, Got(Data(s.mem, th.p)))
        && (th.pc.RetPop? ==> th.ret == Data(s.mem, th.p))
  }

  ghost predicate HandsOk(own: seq<Where>, threads: seq<Local>) {
    forall p :: 0 < p < |own| && own[p].Hand? ==> Holds(ThreadAt(threads, own[p].t), p)
  }

  /** What one step of t does to the nodes in hands. */
  ghost predicate HandsMoved(m: Mem, m': Mem, th: Local, th': Local, t: nat) {
    && |m.own| <= |m'.own|
    && (forall p :: 0 < p < |m'.own| && m'.own[p].Hand? ==>
          if m'.own[p].t == t then Holds(th', p) else p < |m.own| && m'.own[p] == m.own[p])
  }

  lemma PushMovesHands(m: Mem, th: Local, t: nat)
    requires MemInv(m) && th.Busy? && ThreadInv(m, th, t) && th.op.Push?
    requires forall p :: 0 < p < |m.own| && m.own[p] == Hand(t) ==> Holds(th, p)
    ensures HandsMoved(m, Step(m, th, t).0, th, Step(m, th, t).1, t)
  {
  }

  lemma PopMovesHands(m: Mem, th: Local, t: nat)
    requires MemInv(m) && th.Busy? && ThreadInv(m, th, t) && !th.op.Push?
    requires forall p :: 0 < p < |m.own| && m.own[p] == Hand(t) ==> Holds(th, p)
    ensures HandsMoved(m, Step(m, th, t).0, th, Step(m, th, t).1, t)
  {
  }

  lemma HandsKept(m: Mem, m': Mem, threads: seq<Local>, t: nat, th': Local)
    requires HandsOk(m.own, threads) && t < |threads| && HandsMoved(m, m', threads[t], th', t)
    ensures HandsOk(m'.own, threads[t := th'])
  {
  }

  lemma ApplyKeepsHands(s: State, act: Action)
    requires Inv(s) && HandsOk(s.mem.own, s.threads)
    ensures HandsOk(Apply(s, act).mem.own, Apply(s, act).threads)
  {
    var t := act.t;
    if t < |s.threads| {
      var th := s.threads[t];
      assert ThreadInv(s.mem, th, t);
      if act.Invoke? && th.Idle? {
        var (m', th') := Enter(s.mem, act.op, t);
        HandsKept(s.mem, m', s.threads, t, th');
      }
      if act.Continue? && th.Busy? {
        if th.op.Push? { PushMovesHands(s.mem, th, t); } else { PopMovesHands(s.mem, th, t); }
        HandsKept(s.mem, Step(s.mem, th, t).0, s.threads, t, Step(s.mem, th, t).1);
      }
    }
  }

  lemma {:induction false} RunKeepsHands(n: nat, k: nat, sched: seq<Action>)
    requires k > 0
    ensures var s := Exec(Init(n, k), sched); HandsOk(s.mem.own, s.threads)
  {
    if sched != [] {
      RunKeeps(n, k, sched[..|sched| - 1]);
      RunKeepsHands(n, k, sched[..|sched| - 1]);
      ApplyKeepsHands(Exec(Init(n, k), sched[..|sched| - 1]), sched[|sched| - 1]);
    }
  }

  lemma EveryNodeIsInOnePlace(n: nat, k: nat, sched: seq<Action>)
    requires k > 0
    ensures OnePlace(Exec(Init(n, k), sched)) && AnswersNode(Exec(Init(n, k), sched))
  {
    RunKeeps(n, k, sched);
    RunKeepsHands(n, k, sched);
    InvOnePlace(Exec(Init(n, k), sched));
    InvAnswers(Exec(Init(n, k), sched));
  }

  lemma InvOnePlace(s: State)
    requires Inv(s) && HandsOk(s.mem.own, s.threads)
    ensures OnePlace(s)
  {
    SlotsHold(s.mem);
    forall p, t: nat | 0 < p < |s.mem.own|
      ensures Holds(ThreadAt(s.threads, t), p) <==> s.mem.own[p] == Hand(t)
      ensures Given(ThreadAt(s.threads, t), p) ==> s.mem.own[p] == Taken(t)
    {
      if t < |s.threads| { HeldIsOwned(s.mem, s.threads[t], t, p); }
    }
  }

  lemma SlotsHold(m: Mem)
    requires MemInv(m)
    ensures forall p, i :: 0 < p < |m.own| && 0 <= i < |m.push| ==> (m.push[i] == Node(p) <==> m.own[p] == InPush(i))
    ensures forall p, i :: 0 < p < |m.own| && 0 <= i < |m.pop| ==> (m.pop[i] == Node(p) <==> m.own[p] == InPop(i))
  {
    forall p, i | 0 < p < |m.own| && 0 <= i < |m.push|
      ensures (m.push[i] == Node(p) <==> m.own[p] == InPush(i)) && (m.pop[i] == Node(p) <==> m.own[p] == InPop(i))
    {
      assert PushSlotOk(m, i) && PopSlotOk(m, i);
    }
  }

  lemma HeldIsOwned(m: Mem, th: Local, t: nat, p: Ptr)
    requires ThreadInv(m, th, t)
    ensures Holds(th, p) ==> p < |m.own| && m.own[p] == Hand(t)
    ensures Given(th, p) ==> p < |m.own| && m.own[p] == Taken(t)
  {
  }

  lemma InvAnswers(s: State)
    requires Inv(s)
    ensures AnswersNode(s)
  {
    forall t | 0 <= t < |s.threads| && s.threads[t].Busy? && (s.threads[t].pc.PopData? || s.threads[t].pc.RetPop?)
      ensures PhaseOf(s.trace, t) == Done(Pop, Got(Data(s.mem, s.threads[t].p)))
    {
      assert ThreadInv(s.mem, s.threads[t], t);
    }
  }

  /** A node that one popper has been given is never given to another, in any continuation of the run. */
  lemma {:induction false} DeliveredOnce(n: nat, k: nat, sched: seq<Action>, more: seq<Action>)
    requires k > 0
    ensures StillTaken(Exec(Init(n, k), sched).mem, Exec(Init(n, k), sched + more).mem)
  {
    if more == [] {
      assert sched + more == sched;
    } else {
      var before := more[..|more| - 1];
      DeliveredOnce(n, k, sched, before);
      assert (sched + more)[..|sched + more| - 1] == sched + before;
      RunKeeps(n, k, sched + before);
      ApplyKeepsTaken(Exec(Init(n, k), sched + before), more[|more| - 1]);
    }
  }

  lemma ApplyKeepsTaken(s: State, act: Action)
    requires Inv(s)
    ensures StillTaken(s.mem, Apply(s, act).mem)
  {
    var t := act.t;
    if t < |s.threads| && act.Continue? && s.threads[t].Busy? { StepRefinesStack(s.mem, s.threads[t], t); }
  }

  // ---------------------------------------------------------------- inside the collision arrays

  /** The counter's value after d increments is the int with the bits of d. */
  lemma IncrementWraps(d: nat)
    ensures Increment(Counter(AsInt(d), d)) == Counter(AsInt(d + 1), d + 1)
  {
  }

  /** All slots that try_add and try_remove probe from a position lie inside the array, exactly if the position is
      not negative, or happens to be a multiple of the number of slots. */
  lemma ProbesInBounds(position: int, k: nat)
    requires k > 0
    ensures (forall i {:trigger InBounds(position, k, i)} :: 0 <= i < TRY_TIMES ==> InBounds(position, k, i))
       <==> position >= 0 || position % k == 0
  {
    RemainderSign(position, k);
    assert InBounds(position, k, 0) <==> Remainder(position, k) >= 0;
  }

  /** (pos + i) % coll_size is the number of a slot. */
  predicate InBounds(position: int, k: nat, i: nat)
    requires k > 0
  {
    0 <= Remainder(Remainder(position, k) + i, k) < k
  }

  /** With the usual eight slots, the second draw after the counter has wrapped is out of bounds. */
  lemma WrappedDrawFails()
    ensures AsInt(0x8000_0001) == -0x7fff_ffff && Remainder(-0x7fff_ffff, 8) == -7
    ensures !InBounds(AsInt(0x8000_0001), 8, 0)
  {
  }

  predicate Crashed(th: Local) { th.Busy? && th.pc.Crash? }

  /** Draw number d is a slot. */
  predicate DrawFits(d: nat, k: nat)
    requires k > 0
  {
    AsInt(d) >= 0 || AsInt(d) % k == 0
  }

  ghost predicate AllFit(draws: nat, k: nat)
    requires k > 0
  {
    forall d: nat :: d < draws ==> DrawFits(d, k)
  }

  /** The counter counts, and a thread has read outside the arrays exactly if a draw was no slot. */
  ghost predicate DrawsTell(s: State, k: nat)
    requires k > 0
  {
    && |s.mem.push| == k && s.mem.counter.position == AsInt(s.mem.counter.draws)
    && ((forall t :: 0 <= t < |s.threads| ==> !Crashed(s.threads[t])) <==> AllFit(s.mem.counter.draws, k))
  }

  predicate Drawing(th: Local) { th.Busy? && (th.pc.AddPos? || th.pc.RemPos?) }

  lemma StepCounts(m: Mem, th: Local, t: nat)
    requires th.Busy?
    ensures Step(m, th, t).0.counter == if Drawing(th) then Increment(m.counter) else m.counter
  {
  }

  lemma StepKeepsSize(m: Mem, th: Local, t: nat)
    requires th.Busy?
    ensures |Step(m, th, t).0.push| == |m.push|
  {
  }

  lemma StepCrashes(m: Mem, th: Local, t: nat)
    requires th.Busy?
    ensures Crashed(Step(m, th, t).1) <==> if Drawing(th) then Draw(m) < 0 else Crashed(th)
  {
  }

  lemma ApplyTells(s: State, act: Action, k: nat)
    requires k > 0 && DrawsTell(s, k)
    ensures DrawsTell(Apply(s, act), k)
  {
    var t, s' := act.t, Apply(s, act);
    if t < |s.threads| && act.Continue? && s.threads[t].Busy? {
      var th := s.threads[t];
      var d := s.mem.counter.draws;
      StepCounts(s.mem, th, t);
      StepKeepsSize(s.mem, th, t);
      StepCrashes(s.mem, th, t);
      IncrementWraps(d);
      RemainderSign(s.mem.counter.position, k);
      OneMoreDraw(d, k);
      assert forall u :: 0 <= u < |s.threads| && u != t ==> s'.threads[u] == s.threads[u];
      assert s'.threads[t] == Step(s.mem, th, t).1;
    } else {
      assert s'.mem.counter == s.mem.counter && |s'.threads| == |s.threads|;
      assert forall u :: 0 <= u < |s.threads| ==> Crashed(s'.threads[u]) == Crashed(s.threads[u]);
    }
  }

  lemma OneMoreDraw(d: nat, k: nat)
    requires k > 0
    ensures AllFit(d + 1, k) <==> AllFit(d, k) && DrawFits(d, k)
  {
  }

  lemma {:induction false} RunTells(n: nat, k: nat, sched: seq<Action>)
    requires k > 0
    ensures DrawsTell(Exec(Init(n, k), sched), k)
  {
    if sched != [] {
      RunTells(n, k, sched[..|sched| - 1]);
      ApplyTells(Exec(Init(n, k), sched[..|sched| - 1]), sched[|sched| - 1], k);
    }
  }

  /** In every run: no thread reads outside the collision arrays, exactly if at each draw the wrapped counter was not
      negative, or was a multiple of the number of slots. */
  lemma SlotsInBounds(n: nat, k: nat, sched: seq<Action>)
    requires k > 0
    ensures var s := Exec(Init(n, k), sched);
      (forall t :: 0 <= t < |s.threads| ==> !Crashed(s.threads[t])) <==> AllFit(s.mem.counter.draws, k)
  {
    RunTells(n, k, sched);
  }

  /** So a run with at most 2^31 draws is safe. */
  lemma ShortRunsAreSafe(n: nat, k: nat, sched: seq<Action>)
    requires k > 0 && Exec(Init(n, k), sched).mem.counter.draws <= 0x8000_0000
    ensures var s := Exec(Init(n, k), sched); forall t :: 0 <= t < |s.threads| ==> !Crashed(s.threads[t])
  {
    RunTells(n, k, sched);
    EarlyDrawsFit(Exec(Init(n, k), sched).mem.counter.draws, k);
  }

  lemma EarlyDrawsFit(draws: nat, k: nat)
    requires k > 0 && draws <= 0x8000_0000
    ensures AllFit(draws, k)
  {
  }
}
