/**
 A container of this library is used through calls that overlap in time.  Each container is modelled
 as a state machine whose every step is one access to shared memory; the steps leave marks in a trace:

  - `Call` and `Return` are what a client sees;
  - `Commit` marks the step at which a call takes effect;
  - `Observe` marks a step at which a call that changes nothing could have taken effect with that answer
    (the answer is decided only later, by checks that may still send the call back to its start).

 The module states linearizability on calls and returns alone, and proves that a trace whose
 commits and observations agree with a sequential specification is linearizable.
 */
module Linearizability {

  datatype Event<Op, Ret> =
    | Call(t: nat, op: Op)
    | Commit(t: nat, op: Op, ret: Ret)
    | Observe(t: nat, op: Op, ret: Ret)
    | Return(t: nat, ret: Ret)

  /** Where one thread stands between its calls. */
  datatype Phase<Op, Ret> =
    | Quiet
    | Pending(op: Op, seen: set<Ret>)
    | Done(op: Op, ret: Ret)
    | Broken

  function Advance<Op(==), Ret(==)>(p: Phase<Op, Ret>, e: Event<Op, Ret>): Phase<Op, Ret> {
    match e
    case Call(_, op) => if p.Quiet? then Pending(op, {}) else Broken
    case Commit(_, op, ret) => if p.Pending? && p.op == op then Done(op, ret) else Broken
    case Observe(_, op, ret) => if p.Pending? && p.op == op then Pending(op, p.seen + {ret}) else Broken
    case Return(_, ret) =>
      if (p.Done? && p.ret == ret) || (p.Pending? && ret in p.seen) then Quiet else Broken
  }

  /** The phase of thread t after the events of tr. */
  function PhaseOf<Op(==), Ret(==)>(tr: seq<Event<Op, Ret>>, t: nat): Phase<Op, Ret> {
    if tr == [] then Quiet
    else
      var p := PhaseOf(tr[..|tr| - 1], t);
      var e := tr[|tr| - 1];
      if e.t == t then Advance(p, e) else p
  }

  ghost predicate WellFormed<Op, Ret>(tr: seq<Event<Op, Ret>>) {
    forall t: nat :: !PhaseOf(tr, t).Broken?
  }

  /** The abstract value after the commits of tr, in trace order. */
  function ValueAfter<A, Op, Ret>(spec: (A, Op) -> (A, Ret), a0: A, tr: seq<Event<Op, Ret>>): A {
    if tr == [] then a0
    else
      var a := ValueAfter(spec, a0, tr[..|tr| - 1]);
      var e := tr[|tr| - 1];
      if e.Commit? then spec(a, e.op).0 else a
  }

  /** Event e is right for abstract value a: a commit answers as the specification does, an observation
      does so without changing the value. */
  predicate Right<A(==), Op, Ret(==)>(spec: (A, Op) -> (A, Ret), a: A, e: Event<Op, Ret>) {
    match e
    case Commit(_, op, ret) => spec(a, op).1 == ret
    case Observe(_, op, ret) => spec(a, op) == (a, ret)
    case _ => true
  }

  predicate Legal<A(==), Op, Ret(==)>(spec: (A, Op) -> (A, Ret), a0: A, tr: seq<Event<Op, Ret>>) {
    tr == [] ||
    (Legal(spec, a0, tr[..|tr| - 1]) &&
     Right(spec, ValueAfter(spec, a0, tr[..|tr| - 1]), tr[|tr| - 1]))
  }

  lemma AppendEvent<A, Op, Ret>(spec: (A, Op) -> (A, Ret), a0: A, tr: seq<Event<Op, Ret>>, e: Event<Op, Ret>)
    requires Legal(spec, a0, tr) && Right(spec, ValueAfter(spec, a0, tr), e)
    ensures Legal(spec, a0, tr + [e])
    ensures ValueAfter(spec, a0, tr + [e])
         == if e.Commit? then spec(ValueAfter(spec, a0, tr), e.op).0 else ValueAfter(spec, a0, tr)
    ensures forall t: nat :: PhaseOf(tr + [e], t) == if t == e.t then Advance(PhaseOf(tr, t), e) else PhaseOf(tr, t)
  {
    assert (tr + [e])[..|tr|] == tr;
  }

  // ---------------------------------------------------------------- the definition

  /** Index of the last call of thread t among the first n events, or -1. */
  function LastCall<Op, Ret>(tr: seq<Event<Op, Ret>>, n: nat, t: nat): (c: int)
    requires n <= |tr|
    ensures -1 <= c < n
    ensures c >= 0 ==> tr[c].Call? && tr[c].t == t
    ensures forall k :: c < k < n && tr[k].t == t ==> !tr[k].Call?
  {
    if n == 0 then -1
    else if tr[n - 1].Call? && tr[n - 1].t == t then n - 1
    else LastCall(tr, n - 1, t)
  }

  /** The call that event i belongs to. */
  function CallIndex<Op, Ret>(tr: seq<Event<Op, Ret>>, i: nat): int
    requires i < |tr|
  {
    LastCall(tr, i, tr[i].t)
  }

  predicate IsCall<Op, Ret>(tr: seq<Event<Op, Ret>>, c: int) {
    0 <= c < |tr| && tr[c].Call?
  }

  /** The abstract value after making these calls one after the other. */
  function ValueOf<A, Op, Ret>(spec: (A, Op) -> (A, Ret), a0: A, tr: seq<Event<Op, Ret>>, order: seq<(int, Ret)>): A {
    if order == [] then a0
    else
      var a := ValueOf(spec, a0, tr, order[..|order| - 1]);
      var c := order[|order| - 1].0;
      if IsCall(tr, c) then spec(a, tr[c].op).0 else a
  }

  /** The sequential specification gives these calls, one after the other, these answers. */
  predicate Accepts<A, Op, Ret(==)>(spec: (A, Op) -> (A, Ret), a0: A, tr: seq<Event<Op, Ret>>, order: seq<(int, Ret)>) {
    order == [] ||
    var before, (c, ret) := order[..|order| - 1], order[|order| - 1];
    Accepts(spec, a0, tr, before) && IsCall(tr, c) && spec(ValueOf(spec, a0, tr, before), tr[c].op).1 == ret
  }

  /** `order` is a linearization of the calls and returns of tr: it lists every returned call once with
      the answer it returned, possibly some calls that have not returned, nothing else; it never puts a
      call before one that had returned when it was invoked; and the specification accepts it. */
  ghost predicate IsLinearization<A, Op, Ret>(spec: (A, Op) -> (A, Ret), a0: A, tr: seq<Event<Op, Ret>>, order: seq<(int, Ret)>) {
    && (forall i :: 0 <= i < |order| ==> IsCall(tr, order[i].0))
    && (forall i, j :: 0 <= i < j < |order| ==> order[i].0 != order[j].0)
    && (forall r :: 0 <= r < |tr| && tr[r].Return? ==> (CallIndex(tr, r), tr[r].ret) in order)
    && (forall i, j, r :: 0 <= i < j < |order| && 0 <= r < |tr| && tr[r].Return? && CallIndex(tr, r) == order[j].0
          ==> order[i].0 < r)
    && Accepts(spec, a0, tr, order)
  }

  ghost predicate Linearizable<A, Op, Ret(!new)>(spec: (A, Op) -> (A, Ret), a0: A, tr: seq<Event<Op, Ret>>) {
    exists order :: IsLinearization(spec, a0, tr, order)
  }

  // ---------------------------------------------------------------- what phases mean

  lemma {:induction false} BrokenForever<Op, Ret>(tr: seq<Event<Op, Ret>>, n: nat, t: nat)
    requires n <= |tr| && PhaseOf(tr[..n], t).Broken?
    ensures PhaseOf(tr, t).Broken?
    decreases |tr| - n
  {
    if n < |tr| {
      assert tr[..n + 1][..n] == tr[..n];
      BrokenForever(tr, n + 1, t);
    } else {
      assert tr[..n] == tr;
    }
  }

  lemma PrefixWellFormed<Op, Ret>(tr: seq<Event<Op, Ret>>, n: nat, t: nat)
    requires n <= |tr| && WellFormed(tr)
    ensures !PhaseOf(tr[..n], t).Broken?
    ensures n < |tr| && tr[n].t == t ==> !Advance(PhaseOf(tr[..n], t), tr[n]).Broken?
    ensures n < |tr| && tr[n].t == t ==> PhaseOf(tr[..n + 1], t) == Advance(PhaseOf(tr[..n], t), tr[n])
  {
    if PhaseOf(tr[..n], t).Broken? { BrokenForever(tr, n, t); }
    if n < |tr| {
      assert tr[..n + 1][..n] == tr[..n];
      if PhaseOf(tr[..n + 1], t).Broken? { BrokenForever(tr, n + 1, t); }
    }
  }

  /** A thread that has no call pending gets one only by calling. */
  lemma {:induction false} QuietWithoutCall<Op, Ret>(tr: seq<Event<Op, Ret>>, i: nat, j: nat, t: nat)
    requires i <= j <= |tr| && !PhaseOf(tr[..i], t).Pending?
    requires forall k :: i <= k < j && tr[k].t == t ==> !tr[k].Call?
    ensures !PhaseOf(tr[..j], t).Pending?
    decreases j - i
  {
    if i < j {
      assert tr[..i + 1][..i] == tr[..i];
      QuietWithoutCall(tr, i + 1, j, t);
    }
  }

  /** Observation k is the last of its thread before n with that answer, and nothing but
      observations of the same call follows it. */
  ghost predicate LastSeen<Op, Ret>(tr: seq<Event<Op, Ret>>, k: nat, n: nat) {
    k < n <= |tr| && tr[k].Observe? &&
    forall m :: k < m < n && tr[m].t == tr[k].t ==> tr[m].Observe? && tr[m].ret != tr[k].ret
  }

  lemma {:induction false} PhaseMeaning<Op, Ret>(tr: seq<Event<Op, Ret>>, n: nat, t: nat)
    requires n <= |tr|
    ensures var p := PhaseOf(tr[..n], t); var c := LastCall(tr, n, t);
      match p
      case Pending(op, seen) =>
        c >= 0 && tr[c].op == op &&
        forall r :: r in seen ==> exists k: nat :: LastSeen(tr, k, n) && tr[k] == Observe(t, op, r) && LastCall(tr, k, t) == c
      case Done(op, ret) =>
        c >= 0 && tr[c].op == op &&
        exists k: nat :: k < n && tr[k] == Commit(t, op, ret) && LastCall(tr, k, t) == c
      case _ => true
  {
    if n > 0 {
      PhaseMeaning(tr, n - 1, t);
      assert tr[..n][..n - 1] == tr[..n - 1];
      var p0 := PhaseOf(tr[..n - 1], t);
      var p := PhaseOf(tr[..n], t);
      var c := LastCall(tr, n, t);
      if p.Pending? && !(tr[n - 1].t == t && tr[n - 1].Call?) {
        assert p0.Pending? && p0.op == p.op && c == LastCall(tr, n - 1, t);
        forall r | r in p.seen
          ensures exists k: nat :: LastSeen(tr, k, n) && tr[k] == Observe(t, p.op, r) && LastCall(tr, k, t) == c
        {
          if tr[n - 1].t == t && tr[n - 1].ret == r {
            assert LastSeen(tr, n - 1, n);
          } else {
            assert r in p0.seen;
            var k: nat :| LastSeen(tr, k, n - 1) && tr[k] == Observe(t, p.op, r) && LastCall(tr, k, t) == c;
            assert LastSeen(tr, k, n);
          }
        }
      }
      if p.Done? && tr[n - 1].t == t {
        assert tr[n - 1] == Commit(t, p.op, p.ret);
      }
    }
  }

  // ---------------------------------------------------------------- the order of effects

  /** Event i is where its call takes effect: a commit, or the last observation whose answer
      the call went on to return. */
  ghost predicate Takes<Op, Ret>(tr: seq<Event<Op, Ret>>, i: nat) {
    i < |tr| && (tr[i].Commit? ||
      (tr[i].Observe? && exists r: nat :: ReturnsTo(tr, i, r)))
  }

  ghost predicate ReturnsTo<Op, Ret>(tr: seq<Event<Op, Ret>>, i: nat, r: nat) {
    r < |tr| && LastSeen(tr, i, r) && tr[r].Return? && tr[r].t == tr[i].t && tr[r].ret == tr[i].ret
  }

  /** The effects among the first n events, in trace order. */
  ghost function Effects<Op, Ret>(tr: seq<Event<Op, Ret>>, n: nat): (es: seq<nat>)
    requires n <= |tr|
    ensures forall i :: 0 <= i < |es| ==> es[i] < n && Takes(tr, es[i])
    ensures forall i, j :: 0 <= i < j < |es| ==> es[i] < es[j]
    ensures forall k: nat :: k < n && Takes(tr, k) ==> k in es
  {
    if n == 0 then []
    else if Takes(tr, n - 1) then Effects(tr, n - 1) + [n - 1]
    else Effects(tr, n - 1)
  }

  /** The calls of those effects, each with its answer. */
  ghost function OrderOf<Op, Ret>(tr: seq<Event<Op, Ret>>, n: nat): seq<(int, Ret)>
    requires n <= |tr|
  {
    if n == 0 then []
    else if Takes(tr, n - 1) then OrderOf(tr, n - 1) + [(CallIndex(tr, n - 1), tr[n - 1].ret)]
    else OrderOf(tr, n - 1)
  }

  lemma {:induction false} OrderOfEffects<Op, Ret>(tr: seq<Event<Op, Ret>>, n: nat)
    requires n <= |tr|
    ensures |OrderOf(tr, n)| == |Effects(tr, n)|
    ensures forall i :: 0 <= i < |OrderOf(tr, n)| ==>
      OrderOf(tr, n)[i] == (CallIndex(tr, Effects(tr, n)[i]), tr[Effects(tr, n)[i]].ret)
  {
    if n > 0 { OrderOfEffects(tr, n - 1); }
  }

  /** An effect happens while its call is pending, so it has a call and that call has its operation. */
  lemma EffectInsideCall<Op, Ret>(tr: seq<Event<Op, Ret>>, i: nat)
    requires WellFormed(tr) && Takes(tr, i)
    ensures PhaseOf(tr[..i], tr[i].t).Pending?
    ensures CallIndex(tr, i) >= 0 && tr[CallIndex(tr, i)].op == tr[i].op
  {
    PrefixWellFormed(tr, i, tr[i].t);
    PhaseMeaning(tr, i, tr[i].t);
  }

  lemma EffectBeforeReturn<Op, Ret>(tr: seq<Event<Op, Ret>>, i: nat, r: nat)
    requires WellFormed(tr) && Takes(tr, i) && r < |tr| && tr[r].Return?
    requires CallIndex(tr, r) == CallIndex(tr, i)
    ensures i < r
  {
    EffectInsideCall(tr, i);
    var c := CallIndex(tr, i);
    assert tr[r].t == tr[c].t == tr[i].t;
    if r < i {
      PrefixWellFormed(tr, r, tr[r].t);
      QuietWithoutCall(tr, r + 1, i, tr[i].t);
      assert false;
    }
  }

  lemma OneEffectPerCall<Op, Ret>(tr: seq<Event<Op, Ret>>, i: nat, j: nat)
    requires WellFormed(tr) && Takes(tr, i) && Takes(tr, j) && i < j
    ensures CallIndex(tr, i) != CallIndex(tr, j)
  {
    EffectInsideCall(tr, i);
    EffectInsideCall(tr, j);
    if CallIndex(tr, i) == CallIndex(tr, j) {
      var t := tr[i].t;
      assert tr[CallIndex(tr, i)].t == t == tr[j].t;
      PrefixWellFormed(tr, i, t);
      if tr[i].Commit? {
        QuietWithoutCall(tr, i + 1, j, t);
      } else {
        var r: nat :| ReturnsTo(tr, i, r);
        PrefixWellFormed(tr, r, t);
        if r < j {
          QuietWithoutCall(tr, r + 1, j, t);
        } else {
          var r': nat :| ReturnsTo(tr, j, r');
        }
      }
      assert false;
    }
  }

  /** Every return is explained by an effect of the same call with the same answer. */
  lemma ReturnHasEffect<Op, Ret>(tr: seq<Event<Op, Ret>>, r: nat) returns (i: nat)
    requires WellFormed(tr) && r < |tr| && tr[r].Return?
    ensures Takes(tr, i) && CallIndex(tr, i) == CallIndex(tr, r) && tr[i].ret == tr[r].ret
  {
    var t := tr[r].t;
    PrefixWellFormed(tr, r, t);
    PhaseMeaning(tr, r, t);
    var p := PhaseOf(tr[..r], t);
    var c := LastCall(tr, r, t);
    if p.Done? {
      i :| 0 <= i < r && tr[i] == Commit(t, p.op, p.ret) && LastCall(tr, i, t) == c;
    } else {
      i :| 0 <= i && LastSeen(tr, i, r) && tr[i] == Observe(t, p.op, tr[r].ret) && LastCall(tr, i, t) == c;
      assert ReturnsTo(tr, i, r);
    }
  }

  lemma {:induction false} LegalPrefix<A, Op, Ret>(spec: (A, Op) -> (A, Ret), a0: A, tr: seq<Event<Op, Ret>>, n: nat)
    requires Legal(spec, a0, tr) && n <= |tr|
    ensures Legal(spec, a0, tr[..n])
    decreases |tr| - n
  {
    if n < |tr| {
      LegalPrefix(spec, a0, tr, n + 1);
      assert tr[..n + 1][..n] == tr[..n];
    } else {
      assert tr[..n] == tr;
    }
  }

  lemma AcceptOneMore<A, Op, Ret>(spec: (A, Op) -> (A, Ret), a0: A, tr: seq<Event<Op, Ret>>, before: seq<(int, Ret)>, c: int, ret: Ret)
    requires Accepts(spec, a0, tr, before) && IsCall(tr, c)
    requires spec(ValueOf(spec, a0, tr, before), tr[c].op).1 == ret
    ensures Accepts(spec, a0, tr, before + [(c, ret)])
    ensures ValueOf(spec, a0, tr, before + [(c, ret)]) == spec(ValueOf(spec, a0, tr, before), tr[c].op).0
  {
    var order := before + [(c, ret)];
    assert order[..|order| - 1] == before;
  }

  /** Keeping only the effects, in trace order, is a sequential execution with the same value. */
  lemma {:induction false} EffectsAccepted<A, Op, Ret>(spec: (A, Op) -> (A, Ret), a0: A, tr: seq<Event<Op, Ret>>, n: nat)
    requires WellFormed(tr) && Legal(spec, a0, tr) && n <= |tr|
    ensures Accepts(spec, a0, tr, OrderOf(tr, n))
    ensures ValueOf(spec, a0, tr, OrderOf(tr, n)) == ValueAfter(spec, a0, tr[..n])
  {
    if n > 0 {
      EffectsAccepted(spec, a0, tr, n - 1);
      LegalPrefix(spec, a0, tr, n);
      assert tr[..n][..n - 1] == tr[..n - 1];
      if Takes(tr, n - 1) {
        EffectInsideCall(tr, n - 1);
        AcceptOneMore(spec, a0, tr, OrderOf(tr, n - 1), CallIndex(tr, n - 1), tr[n - 1].ret);
      }
    }
  }

  lemma OrderRespectsTime<Op, Ret>(tr: seq<Event<Op, Ret>>)
    requires WellFormed(tr)
    ensures var order := OrderOf(tr, |tr|);
      && (forall i :: 0 <= i < |order| ==> IsCall(tr, order[i].0))
      && (forall i, j :: 0 <= i < j < |order| ==> order[i].0 != order[j].0)
      && (forall i, j, r :: 0 <= i < j < |order| && 0 <= r < |tr| && tr[r].Return? && CallIndex(tr, r) == order[j].0
            ==> order[i].0 < r)
  {
    var es, order := Effects(tr, |tr|), OrderOf(tr, |tr|);
    OrderOfEffects(tr, |tr|);
    forall i | 0 <= i < |order| ensures IsCall(tr, order[i].0) {
      EffectInsideCall(tr, es[i]);
    }
    forall i, j | 0 <= i < j < |order| ensures order[i].0 != order[j].0 {
      OneEffectPerCall(tr, es[i], es[j]);
    }
    forall i, j, r | 0 <= i < j < |order| && 0 <= r < |tr| && tr[r].Return? && CallIndex(tr, r) == order[j].0
      ensures order[i].0 < r
    {
      EffectBeforeReturn(tr, es[j], r);
    }
  }

  lemma OrderHasReturns<Op, Ret>(tr: seq<Event<Op, Ret>>, r: nat)
    requires WellFormed(tr) && r < |tr| && tr[r].Return?
    ensures (CallIndex(tr, r), tr[r].ret) in OrderOf(tr, |tr|)
  {
    OrderOfEffects(tr, |tr|);
    var k := ReturnHasEffect(tr, r);
    var i :| 0 <= i < |Effects(tr, |tr|)| && Effects(tr, |tr|)[i] == k;
    assert OrderOf(tr, |tr|)[i] == (CallIndex(tr, r), tr[r].ret);
  }

  /** Commits and observations that agree with the specification make the calls linearizable. */
  lemma EffectsLinearize<A, Op, Ret(!new)>(spec: (A, Op) -> (A, Ret), a0: A, tr: seq<Event<Op, Ret>>)
    requires WellFormed(tr) && Legal(spec, a0, tr)
    ensures Linearizable(spec, a0, tr)
  {
    var order := OrderOf(tr, |tr|);
    EffectsAccepted(spec, a0, tr, |tr|);
    OrderRespectsTime(tr);
    forall r | 0 <= r < |tr| && tr[r].Return? ensures (CallIndex(tr, r), tr[r].ret) in order {
      OrderHasReturns(tr, r);
    }
    assert IsLinearization(spec, a0, tr, order);
  }
}
