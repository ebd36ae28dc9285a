/**
 When the hash set's table doubles: never before the load factor has been exceeded, and at once when an insert that runs on
 its own exceeds it.
 */
module HashSetGrowth {
  import opened HashSet
  import opened CppInts
  import opened Linearizability
  import L = ListCore

  /** The largest value that the count has had in a run. */
  function Peak(hash: int -> int, s: State, sched: seq<Action>): int {
    var now := Exec(hash, s, sched).mem.count;
    if sched == [] then now
    else
      var before := Peak(hash, s, sched[..|sched| - 1]);
      if now > before then now else before
  }

  /** With so many elements, a table of this size is overloaded. */
  predicate Overloaded(count: int, size: nat, load: real) {
    size > 0 && Quotient(count, size) as real > load
  }

  lemma QuotientGrows(a: int, b: int, d: nat)
    requires a <= b && d > 0
    ensures Quotient(a, d) <= Quotient(b, d)
  {
    if a >= 0 { DivisionGrows(a, b, d); }
    else if b < 0 { DivisionGrows(-b, -a, d); }
    else { assert Quotient(a, d) <= 0 <= Quotient(b, d) by { NoLess(-a, d); NoLess(b, d); } }
  }

  lemma NoLess(a: nat, d: nat)
    requires d > 0
    ensures a / d >= 0
  {
  }

  lemma DivisionGrows(a: nat, b: nat, d: nat)
    requires a <= b && d > 0
    ensures a / d <= b / d
  {
    var p, q := a / d, b / d;
    assert a == d * p + a % d && b == d * q + b % d;
    Multiple(d, p - q);
    assert d * (p - q) == d * p - d * q;
  }

  lemma StaysOverloaded(a: int, b: int, size: nat, load: real)
    requires a <= b && Overloaded(a, size, load)
    ensures Overloaded(b, size, load)
  {
    QuotientGrows(a, b, size);
  }

  /** The table was overloaded, at the peak, before it last doubled; and before a thread is about to double it. */
  ghost predicate Deserved(s: State, peak: int, load: real) {
    && s.mem.load == load && s.mem.count <= peak
    && (s.mem.size > 2 ==> s.mem.size % 2 == 0 && Overloaded(peak, s.mem.size / 2, load))
    && forall t :: 0 <= t < |s.threads| ==> ThreadDeserved(s.threads[t], peak, load)
  }

  predicate ThreadDeserved(th: Local, peak: int, load: real) {
    th.Busy? && th.pc.Grow? ==> Overloaded(peak, th.oldSize, load)
  }

  lemma StepDeserved(hash: int -> int, m: Mem, th: Local, t: nat, peak: int)
    requires th.Busy? && m.count <= peak && ThreadDeserved(th, peak, m.load)
    requires m.size > 2 ==> m.size % 2 == 0 && Overloaded(peak, m.size / 2, m.load)
    ensures var (m', th', _) := Step(hash, m, th, t);
      && m'.load == m.load && ThreadDeserved(th', peak, m.load)
      && (m'.size > 2 ==> m'.size % 2 == 0 && Overloaded(peak, m'.size / 2, m.load))
  {
    if th.pc.ReadCount? { ReadCountDeserved(hash, m, th, t, peak); }
    else if th.pc.Grow? { GrowDeserved(hash, m, th, t, peak); }
    else { OtherStep(hash, m, th, t); }
  }

  lemma OtherStep(hash: int -> int, m: Mem, th: Local, t: nat)
    requires th.Busy? && !th.pc.ReadCount? && !th.pc.Grow?
    ensures var (m', th', _) := Step(hash, m, th, t);
      m'.size == m.size && m'.load == m.load && (th'.Busy? ==> !th'.pc.Grow?)
  {
  }

  lemma ReadCountDeserved(hash: int -> int, m: Mem, th: Local, t: nat, peak: int)
    requires th.Busy? && th.pc.ReadCount? && m.count <= peak
    ensures var (m', th', _) := Step(hash, m, th, t); m' == m && ThreadDeserved(th', peak, m.load)
  {
    if Overloaded(m.count, th.oldSize, m.load) { StaysOverloaded(m.count, peak, th.oldSize, m.load); }
  }

  lemma GrowDeserved(hash: int -> int, m: Mem, th: Local, t: nat, peak: int)
    requires th.Busy? && th.pc.Grow? && Overloaded(peak, th.oldSize, m.load)
    ensures var (m', th', _) := Step(hash, m, th, t);
      && m'.load == m.load && th'.Busy? && th'.pc.Leave?
      && (m'.size == m.size || (m'.size % 2 == 0 && Overloaded(peak, m'.size / 2, m.load)))
  {
    assert 2 * th.oldSize / 2 == th.oldSize;
  }

  lemma PeakGrows(s: State, peak: int, peak': int, load: real)
    requires Deserved(s, peak, load) && peak <= peak'
    ensures Deserved(s, peak', load)
  {
    if s.mem.size > 2 { StaysOverloaded(peak, peak', s.mem.size / 2, load); }
    forall t | 0 <= t < |s.threads| ensures ThreadDeserved(s.threads[t], peak', load) {
      assert ThreadDeserved(s.threads[t], peak, load);
      if s.threads[t].Busy? && s.threads[t].pc.Grow? { StaysOverloaded(peak, peak', s.threads[t].oldSize, load); }
    }
  }

  lemma ApplyDeserved(hash: int -> int, s: State, act: Action, peak: int, load: real)
    requires Deserved(s, peak, load) && Apply(hash, s, act).mem.count <= peak
    ensures Deserved(Apply(hash, s, act), peak, load)
  {
    if act.t < |s.threads| {
      assert ThreadDeserved(s.threads[act.t], peak, load);
      if act.Continue? && s.threads[act.t].Busy? { StepDeserved(hash, s.mem, s.threads[act.t], act.t, peak); }
    }
  }

  lemma {:induction false} RunDeserved(hash: int -> int, n: nat, k: nat, load: real, sched: seq<Action>)
    ensures Deserved(Exec(hash, Init(n, k, load), sched), Peak(hash, Init(n, k, load), sched), load)
  {
    if sched != [] {
      var s, before := Init(n, k, load), sched[..|sched| - 1];
      RunDeserved(hash, n, k, load, before);
      PeakGrows(Exec(hash, s, before), Peak(hash, s, before), Peak(hash, s, sched), load);
      ApplyDeserved(hash, Exec(hash, s, before), sched[|sched| - 1], Peak(hash, s, sched), load);
    }
  }

  /** The table is no larger than its load asks for: if it has doubled, then at some time of the run there were more elements
      to a bucket of the table of half the size than the load factor allows. */
  lemma NoIdleGrowth(hash: int -> int, n: nat, k: nat, load: real, sched: seq<Action>)
    ensures var s := Exec(hash, Init(n, k, load), sched);
      s.mem.size > 2 ==> s.mem.size % 2 == 0 && Quotient(Peak(hash, Init(n, k, load), sched), s.mem.size / 2) as real > load
  {
    RunDeserved(hash, n, k, load, sched);
  }

  /** Thread t takes four steps and nothing else happens. */
  function FourSteps(hash: int -> int, s: State, t: nat): State {
    var c := Continue(t);
    Apply(hash, Apply(hash, Apply(hash, Apply(hash, s, c), c), c), c)
  }

  lemma StepInTurn(hash: int -> int, s: State, t: nat)
    requires t < |s.threads| && s.threads[t].Busy?
    ensures var s', (m', th', es) := Apply(hash, s, Continue(t)), Step(hash, s.mem, s.threads[t], t);
      s'.mem == m' && |s'.threads| == |s.threads| && s'.threads[t] == th'
  {
  }

  /** An insert that has linked its element, running on its own, counts it, and doubles the table exactly if it is overloaded
      then and not as large as the segments allow. */
  lemma InsertGrows(hash: int -> int, s: State, t: nat)
    requires t < |s.threads| && s.threads[t].Busy? && s.threads[t].pc.ReadOldSize?
    ensures var m, m' := s.mem, FourSteps(hash, s, t).mem;
      && m'.count == m.count + 1 && m'.list == m.list && m'.cells == m.cells && m'.segments == m.segments
      && m'.size == if Overloaded(m.count + 1, m.size, m.load) && m.size < MaxSize(m.segmentSize) then 2 * m.size else m.size
  {
    var c := Continue(t);
    var s1 := Apply(hash, s, c);
    var s2 := Apply(hash, s1, c);
    var s3 := Apply(hash, s2, c);
    StepInTurn(hash, s, t);
    StepInTurn(hash, s1, t);
    StepInTurn(hash, s2, t);
    StepInTurn(hash, s3, t);
  }
}
