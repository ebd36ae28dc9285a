/**
 OrderedList of ordered_list.h: any number of threads add, remove and search, each call starting at head.
 */
module OrderedList {
  import opened Linearizability
  import L = ListCore
  import P = ListProof

  datatype Op = Op(kind: L.Kind, key: L.Key)

  datatype Client = Idle | Busy(call: L.Local)

  datatype State = State(mem: L.Mem, threads: seq<Client>, trace: seq<Event<Op, bool>>)
  datatype Action = Invoke(t: nat, op: Op) | Continue(t: nat)

  /** The list as a set of keys. */
  function SetSpec(s: set<L.Key>, op: Op): (set<L.Key>, bool) {
    L.ListSpec(s, op.kind, op.key)
  }

  function Init(n: nat): State {
    State(L.EMPTY, seq(n, _ => Idle), [])
  }

  function Mark(t: nat, l: L.Local, e: L.Effect): seq<Event<Op, bool>> {
    match e
    case Nothing => []
    case Takes(ans) => [Commit(t, Op(l.kind, l.key), ans)]
    case Sees(ans) => [Observe(t, Op(l.kind, l.key), ans)]
  }

  function Apply(s: State, act: Action): State {
    var t := act.t;
    if t >= |s.threads| then s
    else if act.Invoke? && s.threads[t].Idle? then
      var (m', l) := L.Enter(s.mem, act.op.kind, act.op.key, L.Head, L.NULL, t);
      State(m', s.threads[t := Busy(l)], s.trace + [Call(t, act.op)])
    else if act.Continue? && s.threads[t].Busy? then
      var l := s.threads[t].call;
      if l.pc.Answer? then State(s.mem, s.threads[t := Idle], s.trace + [Return(t, l.ans)])
      else
        var (m', l', e) := L.Step(s.mem, l);
        State(m', s.threads[t := Busy(l')], s.trace + Mark(t, l, e))
    else s
  }

  function Exec(s: State, sched: seq<Action>): State {
    if sched == [] then s else Apply(Exec(s, sched[..|sched| - 1]), sched[|sched| - 1])
  }

  // ---------------------------------------------------------------- invariant

  function PhaseNow(c: Client): Phase<Op, bool> {
    if c.Idle? then Quiet
    else if c.call.took then Done(Op(c.call.kind, c.call.key), c.call.ans)
    else Pending(Op(c.call.kind, c.call.key), c.call.seen)
  }

  ghost predicate ClientInv(m: L.Mem, c: Client, t: nat) {
    c.Busy? ==> P.LInv(m, c.call, t) && c.call.from.Head?
  }

  ghost predicate ClientsInv(m: L.Mem, threads: seq<Client>) {
    forall t :: 0 <= t < |threads| ==> ClientInv(m, threads[t], t)
  }

  ghost predicate Inv(s: State) {
    && P.MemInv(s.mem) && ClientsInv(s.mem, s.threads)
    && Legal(SetSpec, {}, s.trace)
    && ValueAfter(SetSpec, {}, s.trace) == P.KeySet(s.mem)
    && forall t: nat :: PhaseOf(s.trace, t) == if t < |s.threads| then PhaseNow(s.threads[t]) else Quiet
  }

  lemma ClientsKept(m: L.Mem, m': L.Mem, threads: seq<Client>, t: nat, c: Client)
    requires t < |threads| && P.Rely(m, m', t) && ClientInv(m', c, t) && ClientsInv(m, threads)
    ensures ClientsInv(m', threads[t := c])
  {
    var threads' := threads[t := c];
    forall u | 0 <= u < |threads'| ensures ClientInv(m', threads'[u], u) {
      if u != t && threads[u].Busy? { P.ThreadStable(m, m', t, threads[u].call, u); }
    }
  }

  lemma InvokeKeeps(s: State, t: nat, op: Op)
    requires Inv(s) && t < |s.threads| && s.threads[t].Idle?
    ensures Inv(Apply(s, Invoke(t, op)))
  {
    var (m', l) := L.Enter(s.mem, op.kind, op.key, L.Head, L.NULL, t);
    P.EnterKeeps(s.mem, op.kind, op.key, L.Head, L.NULL, t);
    ClientsKept(s.mem, m', s.threads, t, Busy(l));
    AppendEvent(SetSpec, {}, s.trace, Call(t, op));
  }

  lemma ReturnKeeps(s: State, t: nat)
    requires Inv(s) && t < |s.threads| && s.threads[t].Busy? && s.threads[t].call.pc.Answer?
    ensures Inv(Apply(s, Continue(t)))
  {
    P.NothingKeeps(s.mem, t);
    ClientsKept(s.mem, s.mem, s.threads, t, Idle);
    AppendEvent(SetSpec, {}, s.trace, Return(t, s.threads[t].call.ans));
  }

  lemma StepMovesPhase(l: L.Local, l': L.Local, t: nat, e: L.Effect)
    requires P.SameCall(l, l', e)
    ensures var es := Mark(t, l, e);
      if es == [] then PhaseNow(Busy(l')) == PhaseNow(Busy(l))
      else |es| == 1 && es[0].t == t && PhaseNow(Busy(l')) == Advance(PhaseNow(Busy(l)), es[0])
  {
  }

  lemma ContinueKeeps(s: State, t: nat)
    requires Inv(s) && t < |s.threads| && s.threads[t].Busy? && !s.threads[t].call.pc.Answer?
    ensures Inv(Apply(s, Continue(t)))
  {
    var l := s.threads[t].call;
    var (m', l', e) := L.Step(s.mem, l);
    P.StepKeeps(s.mem, l, t);
    P.StaysTheCall(s.mem, l, t);
    ClientsKept(s.mem, m', s.threads, t, Busy(l'));
    StepMovesPhase(l, l', t, e);
    var es := Mark(t, l, e);
    if es == [] { assert s.trace + es == s.trace; }
    else {
      assert es == [es[0]];
      AppendEvent(SetSpec, {}, s.trace, es[0]);
    }
  }

  lemma ApplyKeeps(s: State, act: Action)
    requires Inv(s)
    ensures Inv(Apply(s, act))
  {
    if act.t < |s.threads| {
      if act.Invoke? && s.threads[act.t].Idle? { InvokeKeeps(s, act.t, act.op); }
      if act.Continue? && s.threads[act.t].Busy? {
        if s.threads[act.t].call.pc.Answer? { ReturnKeeps(s, act.t); } else { ContinueKeeps(s, act.t); }
      }
    }
  }

  lemma {:induction false} RunKeeps(n: nat, sched: seq<Action>)
    ensures Inv(Exec(Init(n), sched))
  {
    if sched == [] {
      assert P.KeySet(L.EMPTY) == {};
    } else {
      RunKeeps(n, sched[..|sched| - 1]);
      ApplyKeeps(Exec(Init(n), sched[..|sched| - 1]), sched[|sched| - 1]);
    }
  }

  // ---------------------------------------------------------------- main results

  /** In every interleaving the calls behave as if each took effect at once on a set of keys. */
  lemma ListIsLinearizable(n: nat, sched: seq<Action>)
    ensures Linearizable(SetSpec, {}, Exec(Init(n), sched).trace)
  {
    RunKeeps(n, sched);
    EffectsLinearize(SetSpec, {}, Exec(Init(n), sched).trace);
  }

  /** The nodes met by following next fields from p, at most n of them. */
  function Follow(m: L.Mem, p: L.Ptr, n: nat): seq<L.Ptr>
    decreases n
  {
    if n == 0 || p == L.NULL then [] else [p] + Follow(m, L.Next(m, p).p, n - 1)
  }

  /** The walk from head ends, meets strictly increasing keys, and meets every node that has been
      linked in and is not marked. */
  ghost predicate SortedWalk(m: L.Mem) {
    exists n: nat :: EndsBy(m, n)
  }

  ghost predicate EndsBy(m: L.Mem, n: nat) {
    forall k: nat :: k >= n ==> Complete(m, Follow(m, m.head.p, k)) && |Follow(m, m.head.p, k)| <= n
  }

  ghost predicate Complete(m: L.Mem, walk: seq<L.Ptr>) {
    && P.Sorted(m.keys, walk)
    && forall p :: P.Published(m, p) && !L.Next(m, p).marked ==> p in walk
  }

  lemma {:induction false} FollowIsChain(m: L.Mem, i: nat, k: nat)
    requires P.Linked(m) && i <= |m.chain| && k >= |m.chain| - i
    ensures Follow(m, P.NodeAt(m.chain, i), k) == m.chain[i..]
    decreases |m.chain| - i
  {
    if i < |m.chain| {
      assert m.next[m.chain[i]].p == P.NodeAt(m.chain, i + 1);
      FollowIsChain(m, i + 1, k - 1);
    }
  }

  lemma InvSorted(m: L.Mem)
    requires P.MemInv(m)
    ensures SortedWalk(m)
  {
    forall k: nat | k >= |m.chain| ensures Follow(m, m.head.p, k) == m.chain {
      FollowIsChain(m, 0, k);
      assert m.chain[0..] == m.chain;
    }
    assert EndsBy(m, |m.chain|);
  }

  lemma ListStaysSorted(n: nat, sched: seq<Action>)
    ensures SortedWalk(Exec(Init(n), sched).mem)
  {
    RunKeeps(n, sched);
    InvSorted(Exec(Init(n), sched).mem);
  }

  /** Nodes linked in by m are still so in m', and a marked next field has not changed. */
  ghost predicate Frozen(m: L.Mem, m': L.Mem) {
    && |m.keys| <= |m'.keys|
    && forall p :: P.Published(m, p) ==>
         P.Published(m', p) && L.KeyOf(m', p) == L.KeyOf(m, p) && (L.Next(m, p).marked ==> L.Next(m', p) == L.Next(m, p))
  }

  lemma ApplyFreezes(s: State, act: Action)
    requires Inv(s)
    ensures Frozen(s.mem, Apply(s, act).mem)
  {
    if act.t < |s.threads| {
      if act.Invoke? && s.threads[act.t].Idle? { P.EnterKeeps(s.mem, act.op.kind, act.op.key, L.Head, L.NULL, act.t); }
      if act.Continue? && s.threads[act.t].Busy? && !s.threads[act.t].call.pc.Answer? {
        P.StepKeeps(s.mem, s.threads[act.t].call, act.t);
      }
    }
  }

  /** Once a node is marked, its next field never changes again. */
  lemma {:induction false} MarkedLinksAreFrozen(n: nat, sched: seq<Action>, more: seq<Action>)
    ensures Frozen(Exec(Init(n), sched).mem, Exec(Init(n), sched + more).mem)
  {
    RunKeeps(n, sched);
    if more == [] {
      assert sched + more == sched;
    } else {
      var before := more[..|more| - 1];
      MarkedLinksAreFrozen(n, sched, before);
      assert (sched + more)[..|sched + more| - 1] == sched + before;
      RunKeeps(n, sched + before);
      ApplyFreezes(Exec(Init(n), sched + before), more[|more| - 1]);
    }
  }

  ghost predicate NobodyCrashed(s: State) {
    forall t :: 0 <= t < |s.threads| && s.threads[t].Busy? ==> !s.threads[t].call.pc.Crash?
  }

  lemma InvNoCrash(s: State)
    requires Inv(s)
    ensures NobodyCrashed(s)
  {
    forall t | 0 <= t < |s.threads| && s.threads[t].Busy? ensures !s.threads[t].call.pc.Crash? {
      assert ClientInv(s.mem, s.threads[t], t);
    }
  }

  /** find never loads a marked pointer from the cell it starts at. */
  lemma NoAssertionFails(n: nat, sched: seq<Action>)
    ensures NobodyCrashed(Exec(Init(n), sched))
  {
    RunKeeps(n, sched);
    InvNoCrash(Exec(Init(n), sched));
  }
}
