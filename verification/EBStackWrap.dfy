/**
 The position counter of the elimination stack does wrap: two threads can make it draw as often as they like, so with
 two slots or more some run reads outside the collision arrays.
 */
module EBStackWrap {
  import opened StackSpecs
  import opened CppInts
  import opened EBStack
  import opened EBStackResults

  ghost predicate Reaches(s: State, s': State) { exists sched :: Exec(s, sched) == s' }

  lemma {:induction false} ExecAppends(s: State, a: seq<Action>, b: seq<Action>)
    ensures Exec(s, a + b) == Exec(Exec(s, a), b)
  {
    if b == [] {
      assert a + b == a;
    } else {
      assert (a + b)[..|a + b| - 1] == a + b[..|b| - 1];
      ExecAppends(s, a, b[..|b| - 1]);
    }
  }

  lemma Then(s: State, s1: State, s2: State)
    requires Reaches(s, s1) && Reaches(s1, s2)
    ensures Reaches(s, s2)
  {
    var a :| Exec(s, a) == s1;
    var b :| Exec(s1, b) == s2;
    ExecAppends(s, a, b);
  }

  lemma Acts(s: State, act: Action)
    ensures Reaches(s, Apply(s, act))
  {
    assert [act][..0] == [];
    assert Exec(s, [act]) == Apply(s, act);
  }

  /** One instruction of thread t. */
  lemma Turn(s0: State, s: State, t: nat) returns (s': State)
    requires Reaches(s0, s) && t < |s.threads| && s.threads[t].Busy?
    ensures Reaches(s0, s') && s'.threads == s.threads[t := Step(s.mem, s.threads[t], t).1]
    ensures s'.mem == Step(s.mem, s.threads[t], t).0.(phase := s'.mem.phase)
  {
    s' := Apply(s, Continue(t));
    Acts(s, Continue(t));
    Then(s0, s, s');
  }

  // ---------------------------------------------------------------- one round

  /** k slots of each kind, all of them free. */
  predicate Calm(m: Mem, k: nat) {
    && |m.push| == |m.pop| == |m.pusher| == |m.popper| == k > 0 && |m.data| == |m.next| == |m.own| && m.top < |m.own|
    && (forall i :: 0 <= i < k ==> m.push[i] == Free && m.pop[i] == Free)
  }

  /** Thread 0 is at this instruction of a push, and thread 1 is idle. */
  predicate Stand(s: State, k: nat, pc: PC) {
    && Calm(s.mem, k) && |s.threads| == 2 && s.threads[1].Idle?
    && s.threads[0].Busy? && s.threads[0].op.Push? && s.threads[0].pc == pc && s.threads[0].node < |s.mem.own|
  }

  lemma ReadsTop(s0: State, s: State, k: nat) returns (s': State)
    requires Reaches(s0, s) && Stand(s, k, PushRead)
    ensures Reaches(s0, s') && Stand(s', k, PushCas) && s'.mem.counter == s.mem.counter && s'.threads[0].oldTop == s'.mem.top
  {
    var s1 := Turn(s0, s, 0);
    s' := Turn(s0, s1, 0);
  }

  /** Meanwhile thread 1 is at this instruction of a push of a newer node. */
  predicate Pushing(s: State, k: nat, pc: PC) {
    && Calm(s.mem, k) && |s.threads| == 2
    && s.threads[0].Busy? && s.threads[0].op.Push? && s.threads[0].pc == PushCas && s.threads[0].node < |s.mem.own|
    && s.threads[1].Busy? && s.threads[1].op.Push? && s.threads[1].pc == pc
    && s.threads[0].oldTop < s.threads[1].node < |s.mem.own|
  }

  lemma OtherEnters(s0: State, s: State, k: nat) returns (s': State)
    requires Reaches(s0, s) && Stand(s, k, PushCas) && s.threads[0].oldTop == s.mem.top
    ensures Reaches(s0, s') && Pushing(s', k, PushRead) && s'.mem.counter == s.mem.counter
  {
    s' := Apply(s, Invoke(1, Push(0)));
    Acts(s, Invoke(1, Push(0)));
    Then(s0, s, s');
  }

  lemma OtherReads(s0: State, s: State, k: nat) returns (s': State)
    requires Reaches(s0, s) && Pushing(s, k, PushRead)
    ensures Reaches(s0, s') && Pushing(s', k, PushCas) && s'.mem.counter == s.mem.counter && s'.threads[1].oldTop == s'.mem.top
  {
    var s1 := Turn(s0, s, 1);
    s' := Turn(s0, s1, 1);
  }

  lemma OtherPushes(s0: State, s: State, k: nat) returns (s': State)
    requires Reaches(s0, s) && Pushing(s, k, PushCas) && s.threads[1].oldTop == s.mem.top
    ensures Reaches(s0, s') && Stand(s', k, PushCas) && s'.mem.counter == s.mem.counter && s'.threads[0].oldTop != s'.mem.top
  {
    var s1 := Turn(s0, s, 1);
    s' := Turn(s0, s1, 1);
  }

  /** Thread 0 reads top, and then thread 1 pushes. */
  lemma Overtaken(s0: State, s: State, k: nat) returns (s': State)
    requires Reaches(s0, s) && Stand(s, k, PushRead)
    ensures Reaches(s0, s') && Stand(s', k, PushCas) && s'.mem.counter == s.mem.counter && s'.threads[0].oldTop != s'.mem.top
  {
    s' := ReadsTop(s0, s, k);
    s' := OtherEnters(s0, s', k);
    s' := OtherReads(s0, s', k);
    s' := OtherPushes(s0, s', k);
  }

  /** So its compare-and-swap fails, and it draws a position. */
  lemma Draws(s0: State, s: State, k: nat) returns (s': State)
    requires Reaches(s0, s) && Stand(s, k, PushCas) && s.threads[0].oldTop != s.mem.top
    ensures Reaches(s0, s') && s'.mem.counter == Increment(s.mem.counter) && |s'.threads| > 0
    ensures Crashed(s'.threads[0]) || (Stand(s', k, FeedLoad) && s'.threads[0].i == 0)
  {
    var s1 := Turn(s0, s, 0);
    s' := Turn(s0, s1, 0);
  }

  /** No pop waits to be fed. */
  lemma {:induction false} NobodyToFeed(s0: State, s: State, k: nat) returns (s': State)
    requires Reaches(s0, s) && Stand(s, k, FeedLoad) && s.threads[0].i < TRY_TIMES
    ensures Reaches(s0, s') && Stand(s', k, OfferLoad) && s'.mem.counter == s.mem.counter
    decreases TRY_TIMES - s.threads[0].i
  {
    var s1 := Turn(s0, s, 0);
    if s.threads[0].i + 1 < TRY_TIMES { s' := NobodyToFeed(s0, s1, k); } else { s' := s1; }
  }

  /** Thread 0 waits with its node in the slot that it probed. */
  predicate Offering(s: State, k: nat, pc: PC) {
    && |s.threads| == 2 && s.threads[1].Idle? && s.threads[0].Busy? && s.threads[0].op.Push? && s.threads[0].pc == pc
    && s.threads[0].node < |s.mem.own|
    && var m, x := s.mem, Index(s.mem, s.threads[0]);
       && |m.push| == |m.pop| == |m.pusher| == |m.popper| == k > 0 && |m.data| == |m.next| == |m.own| && m.top < |m.own|
       && (forall i :: 0 <= i < k ==> m.pop[i] == Free && m.push[i] == if i == x then Node(s.threads[0].node) else Free)
  }

  lemma Offers(s0: State, s: State, k: nat) returns (s': State)
    requires Reaches(s0, s) && Stand(s, k, OfferLoad)
    ensures Reaches(s0, s') && Offering(s', k, WaitLoad) && s'.mem.counter == s.mem.counter
  {
    var s1 := Turn(s0, s, 0);
    s' := Turn(s0, s1, 0);
  }

  lemma TakesBack(s0: State, s: State, k: nat) returns (s': State)
    requires Reaches(s0, s) && Offering(s, k, WaitLoad)
    ensures Reaches(s0, s') && Stand(s', k, PushRead) && s'.mem.counter == s.mem.counter
  {
    var s1 := Turn(s0, s, 0);
    s' := Turn(s0, s1, 0);
  }

  lemma Round(s0: State, s: State, k: nat) returns (s': State)
    requires Reaches(s0, s) && Stand(s, k, PushRead)
    ensures Reaches(s0, s') && s'.mem.counter == Increment(s.mem.counter) && |s'.threads| > 0
    ensures Crashed(s'.threads[0]) || Stand(s', k, PushRead)
  {
    var s1 := Overtaken(s0, s, k);
    s' := Draws(s0, s1, k);
    if !Crashed(s'.threads[0]) {
      s' := NobodyToFeed(s0, s', k);
      s' := Offers(s0, s', k);
      s' := TakesBack(s0, s', k);
    }
  }

  // ---------------------------------------------------------------- any number of rounds

  /** Two threads reach any number of draws, or read outside the arrays before. */
  lemma {:induction false} ManyDraws(k: nat, draws: nat) returns (s: State)
    requires k > 0
    ensures Reaches(Init(2, k), s) && |s.threads| > 0 && (Crashed(s.threads[0]) || (Stand(s, k, PushRead) && s.mem.counter.draws == draws))
  {
    var s0 := Init(2, k);
    if draws == 0 {
      s := Apply(s0, Invoke(0, Push(0)));
      Acts(s0, Invoke(0, Push(0)));
    } else {
      s := ManyDraws(k, draws - 1);
      if !Crashed(s.threads[0]) { s := Round(s0, s, k); }
    }
  }

  /** Of two draws in a row behind the wrap, one is no slot. */
  lemma WrapMisses(k: nat)
    requires k > 1
    ensures !DrawFits(0x8000_0000, k) || !DrawFits(0x8000_0001, k)
  {
    if (-0x8000_0000) % k == 0 && (-0x8000_0000 + 1) % k == 0 { NotBoth(-0x8000_0000, k); }
  }

  lemma NotBoth(a: int, k: nat)
    requires k > 1 && a % k == 0
    ensures (a + 1) % k == 1
  {
    ModIs(a + 1, k, a / k, 1);
  }

  /** With two slots or more, some run of two threads reads outside the collision arrays. */
  lemma SomeRunCrashes(k: nat) returns (sched: seq<Action>)
    requires k > 1
    ensures exists t :: 0 <= t < |Exec(Init(2, k), sched).threads| && Crashed(Exec(Init(2, k), sched).threads[t])
  {
    var s := ManyDraws(k, 0x8000_0002);
    sched :| Exec(Init(2, k), sched) == s;
    RunTells(2, k, sched);
    WrapMisses(k);
  }

  /** With one slot, every multiple is one: no run does. */
  lemma OneSlotIsSafe(n: nat, sched: seq<Action>)
    ensures var s := Exec(Init(n, 1), sched); forall t :: 0 <= t < |s.threads| ==> !Crashed(s.threads[t])
  {
    RunTells(n, 1, sched);
    assert AllFit(Exec(Init(n, 1), sched).mem.counter.draws, 1);
  }
}
