/**
 What the pool does get done: shutdown reaches every queue, a pool that is shut down can always finish and does so when
 its workers keep running, and an idle worker takes work from the queues that it looks at.
 */
module PoolProgress {
  import opened Pool
  import opened PoolProof

  // ---------------------------------------------------------------- shutdown

  function Shutdowns(sched: seq<Action>): nat {
    if sched == [] then 0 else Shutdowns(sched[..|sched| - 1]) + if sched[|sched| - 1].Shutdown? then 1 else 0
  }

  /** Null pointer number k is put in by the shutdown action after the k-th, whatever happens in between. */
  lemma {:induction false} ShutdownsCounted(n: nat, sched: seq<Action>)
    ensures var s, k := Exec(Init(n), sched), Shutdowns(sched);
      && |s.queues| == |s.workers| == n
      && (s.started <==> k > 0)
      && s.shut == if k == 0 then 0 else if k <= n then k - 1 else n
  {
    if sched != [] { ShutdownsCounted(n, sched[..|sched| - 1]); }
  }

  /** A whole shutdown, spread over a run in any way, leaves each queue's null pointer in the queue, with a thief who is about
      to put it back, or consumed by the owner. */
  lemma ShutdownIsComplete(n: nat, sched: seq<Action>)
    requires Shutdowns(sched) >= n + 1
    ensures var s := Exec(Init(n), sched);
      && s.started && s.shut == |s.queues| == |s.token| == n
      && forall q :: 0 <= q < n ==> !s.token[q].NotYet? && TokenOk(s, q)
  {
    ShutdownsCounted(n, sched);
    RunKeeps(n, sched);
  }

  /** When it is complete and no worker can take a step any more, the pool has finished. */
  lemma RestMeansDone(n: nat, sched: seq<Action>)
    requires n > 0 && Shutdowns(sched) >= n + 1
    requires forall w: nat :: !Enabled(Exec(Init(n), sched), w)
    ensures var s := Exec(Init(n), sched); s.active == 0 && AllDone(s)
  {
    RunKeeps(n, sched);
    ShutdownsCounted(n, sched);
    NobodyCanStep(Exec(Init(n), sched));
  }

  lemma NobodyCanStep(s: State)
    requires Inv(s) && s.shut == |s.queues| && |s.workers| > 0 && forall w: nat :: !Enabled(s, w)
    ensures s.active == 0 && AllDone(s)
  {
    forall w | 0 <= w < |s.workers| ensures s.workers[w].Exited? {
      if !s.workers[w].Exited? { SomeoneCanStep(s, w); }
    }
    NobodyAlive(s.workers);
    InvAllDone(s);
  }

  lemma {:induction false} NobodyAlive(workers: seq<PC>)
    requires forall w :: 0 <= w < |workers| ==> workers[w].Exited?
    ensures Alive(workers) == 0
  {
    if workers != [] { NobodyAlive(workers[1..]); }
  }

  lemma {:induction false} ExecAppends(s: State, a: seq<Action>, b: seq<Action>)
    ensures Exec(s, a + b) == Exec(Exec(s, a), b)
  {
    if b == [] {
      assert a + b == a;
    } else {
      assert (a + b)[..|a + b| - 1] == a + b[..|b| - 1];
      ExecAppends(s, a, b[..|b| - 1]);
    }
  }

  predicate NoSubmissions(more: seq<Action>) {
    forall i :: 0 <= i < |more| ==> !more[i].Submit?
  }

  ghost predicate Finished(s: State) {
    s.active == 0 && s.finished && AllDone(s)
  }

  /** A pool that is shut down works off what it has. */
  lemma {:induction false} WorksOff(s: State) returns (more: seq<Action>)
    requires Inv(s) && s.started && s.shut == |s.queues| && |s.workers| > 0
    ensures (forall i :: 0 <= i < |more| ==> more[i].Work?) && |more| <= Measure(s)
    ensures Finished(Exec(s, more))
    decreases Measure(s)
  {
    if w: nat :| Enabled(s, w) {
      StepDecreases(s, w);
      ApplyKeeps(s, Work(w));
      var rest := WorksOff(Step(s, w));
      more := [Work(w)] + rest;
      assert [Work(w)][..0] == [];
      assert Exec(s, [Work(w)]) == Step(s, w);
      ExecAppends(s, [Work(w)], rest);
    } else {
      more := [];
      NobodyCanStep(s);
    }
  }

  function Signals(k: nat): (r: seq<Action>)
    ensures |r| == k && forall i :: 0 <= i < k ==> r[i].Shutdown?
  {
    seq(k, _ => Shutdown)
  }

  lemma {:induction false} SignalsCount(sched: seq<Action>, k: nat)
    ensures Shutdowns(sched + Signals(k)) == Shutdowns(sched) + k
  {
    if k == 0 {
      assert sched + Signals(0) == sched;
    } else {
      assert (sched + Signals(k))[..|sched| + k - 1] == sched + Signals(k - 1);
      SignalsCount(sched, k - 1);
    }
  }

  /** From every reachable state the pool can finish, with all that was submitted run, and no task need be submitted for it. */
  lemma PoolCanFinish(n: nat, sched: seq<Action>)
    requires n > 0
    ensures exists more: seq<Action> :: NoSubmissions(more) && Finished(Exec(Init(n), sched + more))
  {
    var rest := FinishFrom(n, sched + Signals(n + 1), sched);
    assert NoSubmissions(Signals(n + 1) + rest) && Finished(Exec(Init(n), sched + (Signals(n + 1) + rest)));
  }

  lemma FinishFrom(n: nat, before: seq<Action>, sched: seq<Action>) returns (rest: seq<Action>)
    requires n > 0 && before == sched + Signals(n + 1)
    ensures NoSubmissions(Signals(n + 1) + rest) && Finished(Exec(Init(n), sched + (Signals(n + 1) + rest)))
  {
    SignalsCount(sched, n + 1);
    ShutdownsCounted(n, before);
    RunKeeps(n, before);
    rest := WorksOff(Exec(Init(n), before));
    ExecAppends(Init(n), before, rest);
    ThreeParts(sched, Signals(n + 1), rest);
  }

  lemma ThreeParts(a: seq<Action>, b: seq<Action>, c: seq<Action>)
    ensures a + (b + c) == a + b + c
  {
  }

  // ---------------------------------------------------------------- fetching and stealing

  /** Worker w takes k steps and nothing else happens. */
  function Alone(s: State, w: nat, k: nat): State
    decreases k
  {
    if k == 0 then s else Alone(Apply(s, Work(w)), w, k - 1)
  }

  /** k steps of worker w lead from s to s'. */
  ghost predicate Leads(s: State, w: nat, k: nat, s': State) {
    forall more: nat :: Alone(s, w, k + more) == Alone(s', w, more)
  }

  lemma {:induction false} LeadsOnce(s: State, w: nat, s': State)
    requires w < |s.workers| && Step(s, w) == s'
    ensures Leads(s, w, 1, s')
  {
  }

  lemma LeadsOn(s: State, w: nat, k: nat, s1: State, l: nat, s2: State)
    requires Leads(s, w, k, s1) && Leads(s1, w, l, s2)
    ensures Leads(s, w, k + l, s2)
  {
    forall more: nat ensures Alone(s, w, k + l + more) == Alone(s2, w, more) {
      assert Alone(s, w, k + (l + more)) == Alone(s1, w, l + more);
    }
  }

  lemma LeadsTo(s: State, w: nat, k: nat, s': State)
    requires Leads(s, w, k, s')
    ensures Alone(s, w, k) == s'
  {
    assert Alone(s, w, k + 0) == Alone(s', w, 0);
  }

  predicate Ran(s: State, s': State, id: nat) {
    s'.workers == s.workers && s'.ran == s.ran + [id]
  }

  /** A worker takes the oldest task of its own queue, and runs it. */
  lemma OwnTaskIsRun(s: State, w: nat)
    requires w < |s.workers| && s.workers[w].Fetch? && Queue(s, w) != [] && RightEnd(s, w).Task?
    ensures var s' := Alone(s, w, 2); Ran(s, s', RightEnd(s, w).id) && s'.queues == s.queues[w := s.queues[w][..|s.queues[w]| - 1]]
  {
    var id := RightEnd(s, w).id;
    var s1 := Goto(PopRight(s, w), w, Run(id));
    var s2 := Goto(s1.(ran := s1.ran + [id]), w, Fetch);
    LeadsOnce(s, w, s1);
    LeadsOnce(s1, w, s2);
    LeadsOn(s, w, 1, s1, 1, s2);
    LeadsTo(s, w, 2, s2);
    assert s2.workers == s.workers[w := Run(id)][w := Fetch] == s.workers;
  }

  /** The queue that worker w looks at in round i of stealing: w, then the one after it, and so on around. */
  function Victim(s: State, w: nat, i: nat): nat {
    if w + i < |s.queues| then w + i else if w + i < 2 * |s.queues| then w + i - |s.queues| else 0
  }

  /** The rounds before k find nothing. */
  predicate NothingUpTo(s: State, w: nat, k: nat) {
    forall j: nat :: j < k ==> Queue(s, Victim(s, w, j)) == []
  }

  /** One round of stealing. */
  lemma StealRound(s: State, w: nat, i: nat)
    requires w < |s.workers| == |s.queues| && s.workers[w] == Steal(i)
    ensures var v, s' := Victim(s, w, i), Step(s, w);
      && (i + 1 >= |s.queues| ==> s' == Goto(s, w, Take))
      && (i + 1 < |s.queues| && Queue(s, v) == [] ==> s' == Goto(s, w, Steal(i + 1)))
      && (i + 1 < |s.queues| && Queue(s, v) != [] && LeftEnd(s, v).Task? ==>
            s'.queues == s.queues[v := s.queues[v][1..]] && s'.ran == s.ran && s'.workers == s.workers[w := Run(LeftEnd(s, v).id)])
      && (i + 1 < |s.queues| && Queue(s, v) != [] && LeftEnd(s, v).Null? ==>
            s'.queues == s.queues[v := s.queues[v][1..]] && s'.ran == s.ran && s'.workers == s.workers[w := PutBack(v)])
  {
    if i + 1 < |s.queues| { Around(i + w, |s.queues|); }
  }

  lemma Around(a: nat, n: nat)
    requires 0 < n && a < 2 * n
    ensures a % n == if a < n then a else a - n
  {
  }

  lemma LooksOnce(s: State, w: nat, i: nat)
    requires w < |s.workers| == |s.queues| && s.workers[w] == Steal(i)
    requires i + 1 < |s.queues| && Queue(s, Victim(s, w, i)) == []
    ensures Leads(s, w, 1, Goto(s, w, Steal(i + 1)))
  {
    StealRound(s, w, i);
    LeadsOnce(s, w, Goto(s, w, Steal(i + 1)));
  }

  lemma MovesOn(s: State, w: nat, a: PC, b: PC)
    requires w < |s.workers|
    ensures Goto(Goto(s, w, a), w, b) == Goto(s, w, b)
    ensures s.workers[w] == b ==> Goto(s, w, b) == s && Goto(s, w, a).workers[w := b] == s.workers
  {
    assert s.workers[w := a][w := b] == s.workers[w := b];
    if s.workers[w] == b { assert s.workers[w := b] == s.workers; }
  }

  /** A worker whose own queue is empty goes to round k, when the rounds before find nothing. */
  lemma {:induction false} LooksFrom(s: State, w: nat, k: nat)
    requires w < |s.workers| == |s.queues| && s.workers[w].Fetch? && Queue(s, w) == []
    requires k < |s.queues| && NothingUpTo(s, w, k)
    ensures Leads(s, w, 1 + k, Goto(s, w, Steal(k)))
  {
    if k == 0 {
      LeadsOnce(s, w, Goto(s, w, Steal(0)));
    } else {
      assert Queue(s, Victim(s, w, k - 1)) == [];
      LooksFrom(s, w, k - 1);
      LooksFurther(s, w, k - 1);
    }
  }

  lemma LooksFurther(s: State, w: nat, i: nat)
    requires w < |s.workers| == |s.queues| && i + 1 < |s.queues| && Queue(s, Victim(s, w, i)) == []
    requires Leads(s, w, 1 + i, Goto(s, w, Steal(i)))
    ensures Leads(s, w, 1 + (i + 1), Goto(s, w, Steal(i + 1)))
  {
    LooksAtEmpty(s, Goto(s, w, Steal(i)), w, i);
    LeadsOn(s, w, 1 + i, Goto(s, w, Steal(i)), 1, Goto(s, w, Steal(i + 1)));
  }

  lemma LooksAtEmpty(s: State, s': State, w: nat, i: nat)
    requires w < |s.workers| == |s.queues| && i + 1 < |s.queues| && Queue(s, Victim(s, w, i)) == [] && s' == Goto(s, w, Steal(i))
    ensures Leads(s', w, 1, Goto(s, w, Steal(i + 1)))
  {
    LooksOnce(s', w, i);
    MovesOn(s, w, Steal(i), Steal(i + 1));
  }

  /** An idle worker runs the newest task of the first queue that is not empty, of those it looks at. */
  lemma ThiefGetsTask(s: State, w: nat, k: nat)
    requires w < |s.workers| == |s.queues| && s.workers[w].Fetch? && Queue(s, w) == []
    requires k + 1 < |s.queues| && NothingUpTo(s, w, k)
    requires Queue(s, Victim(s, w, k)) != [] && LeftEnd(s, Victim(s, w, k)).Task?
    ensures var s', v := Alone(s, w, k + 3), Victim(s, w, k);
      Ran(s, s', LeftEnd(s, v).id) && s'.queues == s.queues[v := s.queues[v][1..]]
  {
    LooksFrom(s, w, k);
    var s' := RunsStolen(s, Goto(s, w, Steal(k)), w, k);
    LeadsOn(s, w, 1 + k, Goto(s, w, Steal(k)), 2, s');
    LeadsTo(s, w, k + 3, s');
  }

  lemma RunsStolen(s: State, s0: State, w: nat, k: nat) returns (s': State)
    requires w < |s.workers| == |s.queues| && s.workers[w].Fetch? && s0 == Goto(s, w, Steal(k)) && k + 1 < |s.queues|
    requires Queue(s, Victim(s, w, k)) != [] && LeftEnd(s, Victim(s, w, k)).Task?
    ensures var v := Victim(s, w, k);
      Leads(s0, w, 2, s') && Ran(s, s', LeftEnd(s, v).id) && s'.queues == s.queues[v := s.queues[v][1..]]
  {
    var v, s1 := Victim(s, w, k), Step(s0, w);
    var id := LeftEnd(s, v).id;
    StealRound(s0, w, k);
    s' := Goto(s1.(ran := s1.ran + [id]), w, Fetch);
    LeadsOnce(s0, w, s1);
    LeadsOnce(s1, w, s');
    LeadsOn(s0, w, 1, s1, 1, s');
    assert s.workers[w := Steal(k)][w := Run(id)][w := Fetch] == s.workers;
  }

  /** A null pointer that it finds there is put back, and the worker waits at its own queue. */
  lemma ThiefPutsBack(s: State, w: nat, k: nat)
    requires w < |s.workers| == |s.queues| && s.workers[w].Fetch? && Queue(s, w) == []
    requires k + 1 < |s.queues| && NothingUpTo(s, w, k)
    requires Queue(s, Victim(s, w, k)) != [] && LeftEnd(s, Victim(s, w, k)).Null?
    ensures var s' := Alone(s, w, k + 3);
      s'.workers == s.workers[w := Take] && s'.queues == s.queues && s'.ran == s.ran && !Enabled(s', w)
  {
    LooksFrom(s, w, k);
    var s' := PutsBack(s, Goto(s, w, Steal(k)), w, k);
    LeadsOn(s, w, 1 + k, Goto(s, w, Steal(k)), 2, s');
    LeadsTo(s, w, k + 3, s');
  }

  lemma PutsBack(s: State, s0: State, w: nat, k: nat) returns (s': State)
    requires w < |s.workers| == |s.queues| && s0 == Goto(s, w, Steal(k)) && k + 1 < |s.queues|
    requires Queue(s, Victim(s, w, k)) != [] && LeftEnd(s, Victim(s, w, k)).Null?
    ensures Leads(s0, w, 2, s') && s'.workers == s.workers[w := Take] && s'.queues == s.queues && s'.ran == s.ran
  {
    var v, s1 := Victim(s, w, k), Step(s0, w);
    StealRound(s0, w, k);
    s' := Step(s1, w);
    LeadsOnce(s0, w, s1);
    LeadsOnce(s1, w, s');
    LeadsOn(s0, w, 1, s1, 1, s');
    assert s.workers[w := Steal(k)][w := PutBack(v)][w := Take] == s.workers[w := Take];
    assert [Null] + s.queues[v][1..] == s.queues[v];
    assert s.queues[v := s.queues[v][1..]][v := s.queues[v]] == s.queues;
  }

  /** If all of them are empty it waits too: the queue before its own is never looked at, so a task that stands only there is
      left for its owner. */
  lemma ThiefWaits(s: State, w: nat)
    requires w < |s.workers| == |s.queues| && s.workers[w].Fetch?
    requires NothingUpTo(s, w, |s.queues| - 1) && Queue(s, w) == []
    ensures var s' := Alone(s, w, |s.queues| + 1); s' == Goto(s, w, Take) && !Enabled(s', w)
  {
    var n, s1 := |s.queues|, Goto(s, w, Steal(|s.queues| - 1));
    LooksFrom(s, w, n - 1);
    GivesUp(s, s1, w);
    LeadsOn(s, w, n, s1, 1, Goto(s, w, Take));
    LeadsTo(s, w, n + 1, Goto(s, w, Take));
  }

  lemma GivesUp(s: State, s1: State, w: nat)
    requires w < |s.workers| == |s.queues| && s1 == Goto(s, w, Steal(|s.queues| - 1))
    ensures Leads(s1, w, 1, Goto(s, w, Take))
  {
    StealRound(s1, w, |s.queues| - 1);
    MovesOn(s, w, Steal(|s.queues| - 1), Take);
    LeadsOnce(s1, w, Goto(s, w, Take));
  }
}
