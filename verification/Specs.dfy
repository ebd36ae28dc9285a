/** What several modules share: the meaning of stacks and deques on sequences, and the arithmetic of C++ ints. */
module StackSpecs {
  datatype Op = Push(v: int) | Pop | Peek
  datatype Ret = Pushed | Empty | Got(v: int)

  /** Top first. */
  function StackSpec(a: seq<int>, op: Op): (seq<int>, Ret) {
    match op
    case Push(v) => ([v] + a, Pushed)
    case Pop => if a == [] then (a, Empty) else (a[1..], Got(a[0]))
    case Peek => (a, if a == [] then Empty else Got(a[0]))
  }
}

module DequeSpecs {
  datatype Side = Left | Right
  datatype Op = Push(d: Side, v: int) | Pop(d: Side)
  datatype Ret = Pushed | Empty | Got(v: int)

  /** Left end first. */
  function DequeSpec(a: seq<int>, op: Op): (seq<int>, Ret) {
    match op
    case Push(Right, v) => (a + [v], Pushed)
    case Push(Left, v) => ([v] + a, Pushed)
    case Pop(Right) => if a == [] then (a, Empty) else (a[..|a| - 1], Got(a[|a| - 1]))
    case Pop(Left) => if a == [] then (a, Empty) else (a[1..], Got(a[0]))
  }
}

module Sequences {
  ghost predicate Distinct<T>(s: seq<T>) {
    forall i, j :: 0 <= i < j < |s| ==> s[i] != s[j]
  }

  function Elements<T(!new)>(s: seq<T>): (r: set<T>)
    ensures forall x :: x in r <==> x in s
  {
    set x | x in s
  }

  lemma {:induction false} DistinctFits<T>(s: seq<T>, t: set<T>)
    requires Distinct(s) && forall x :: x in s ==> x in t
    ensures |s| <= |t|
  {
    if s != [] {
      var x := s[|s| - 1];
      DistinctFits(s[..|s| - 1], t - {x});
    }
  }
}

/** 32-bit int and unsigned, and division that truncates. */
module CppInts {
  function AsInt(n: nat): int {
    var r := n % 0x1_0000_0000;
    if r < 0x8000_0000 then r else r - 0x1_0000_0000
  }

  function AsUnsigned(a: int): nat { a % 0x1_0000_0000 }

  function Quotient(a: int, b: nat): int
    requires b > 0
  {
    if a >= 0 then a / b else -(-a / b)
  }

  /** The remainder has the sign of the dividend. */
  function Remainder(a: int, b: nat): int
    requires b > 0
  {
    if a >= 0 then a % b else -(-a % b)
  }

  lemma Multiple(d: int, k: int)
    requires d >= 0
    ensures k >= 1 ==> d * k >= d
    ensures k <= -1 ==> d * k <= -d
  {
    if k >= 1 { assert d * k == d + d * (k - 1); }
    if k <= -1 { assert d * k == -d + d * (k + 1); }
  }

  lemma ModIs(n: int, d: nat, q: int, r: nat)
    requires d > 0 && n == d * q + r && r < d
    ensures n % d == r
  {
    var k := n / d - q;
    Multiple(d, k);
    assert d * k == d * (n / d) - d * q;
  }

  lemma RemainderSign(a: int, b: nat)
    requires b > 0
    ensures -(b as int) < Remainder(a, b) < b
    ensures Remainder(a, b) >= 0 <==> a >= 0 || a % b == 0
    ensures Remainder(a, b) == 0 <==> a % b == 0
  {
    if a < 0 {
      var q, r := -a / b, -a % b;
      assert a == b * -q - r;
      if r > 0 { ModIs(a, b, -q - 1, b - r); } else { ModIs(a, b, -q, 0); }
    }
  }

  lemma ProductMod(a: int, m: int, b: nat)
    requires b > 0 && a % b == 0
    ensures (a + m * b) % b == 0
  {
    var q := a / b;
    assert a + m * b == b * (q + m) + 0;
    ModIs(a + m * b, b, q + m, 0);
  }
}
