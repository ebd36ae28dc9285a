/**
 The two library algorithms that parallel_sort is given, std::sort and std::inplace_merge, with the contracts
 that parallel_sort relies on.  How they are carried out here (by insertion) is of no account.
 */
module RangeSort {

  /** s is sorted from lo up to, but not including, hi. */
  predicate SortedIn(s: seq<int>, lo: int, hi: int) {
    forall i, j :: 0 <= lo <= i < j < hi <= |s| ==> s[i] <= s[j]
  }

  /** A range of a has been rearranged. */
  twostate predicate Rearranged(a: array<int>, lo: int, hi: int)
    reads a
  {
    && multiset(a[..]) == multiset(old(a[..]))
    && (forall k :: 0 <= k < a.Length && !(lo <= k < hi) ==> a[k] == old(a[k]))
  }

  lemma SwapKeeps(s: seq<int>, i: nat, j: nat)
    requires i < |s| && j < |s|
    ensures multiset(s[i := s[j]][j := s[i]]) == multiset(s)
  {
  }

  method Swap(a: array<int>, j: nat)
    requires 0 < j < a.Length
    modifies a
    ensures a[j - 1] == old(a[j]) && a[j] == old(a[j - 1])
    ensures forall k :: 0 <= k < a.Length && k != j - 1 && k != j ==> a[k] == old(a[k])
    ensures multiset(a[..]) == multiset(old(a[..]))
  {
    ghost var before := a[..];
    SwapKeeps(before, j - 1, j);
    a[j - 1], a[j] := a[j], a[j - 1];
    assert a[..] == before[j - 1 := before[j]][j := before[j - 1]];
  }

  /** The element at k is put in its place among the sorted elements in front of it. */
  method Insert(a: array<int>, lo: nat, k: nat)
    requires lo <= k < a.Length && SortedIn(a[..], lo, k)
    modifies a
    ensures SortedIn(a[..], lo, k + 1) && Rearranged(a, lo, k + 1)
  {
    var j := k;
    while j > lo && a[j - 1] > a[j]
      invariant lo <= j <= k
      invariant forall x, y :: lo <= x < y <= k && y != j ==> a[x] <= a[y]
      invariant forall x :: 0 <= x < a.Length && !(lo <= x <= k) ==> a[x] == old(a[x])
      invariant multiset(a[..]) == multiset(old(a[..]))
    {
      Swap(a, j);
      j := j - 1;
    }
  }

  /** The elements from mid up to hi are inserted one after the other. */
  method InsertAll(a: array<int>, lo: nat, mid: nat, hi: nat)
    requires lo <= mid <= hi <= a.Length && SortedIn(a[..], lo, mid)
    modifies a
    ensures SortedIn(a[..], lo, hi) && Rearranged(a, lo, hi)
  {
    var k := mid;
    while k < hi
      invariant mid <= k <= hi && SortedIn(a[..], lo, k) && Rearranged(a, lo, hi)
    {
      Insert(a, lo, k);
      k := k + 1;
    }
  }

  method Sort(a: array<int>, lo: nat, hi: nat)
    requires lo <= hi <= a.Length
    modifies a
    ensures SortedIn(a[..], lo, hi) && Rearranged(a, lo, hi)
  {
    InsertAll(a, lo, lo, hi);
  }

  method InplaceMerge(a: array<int>, lo: nat, mid: nat, hi: nat)
    requires lo <= mid <= hi <= a.Length && SortedIn(a[..], lo, mid) && SortedIn(a[..], mid, hi)
    modifies a
    ensures SortedIn(a[..], lo, hi) && Rearranged(a, lo, hi)
  {
    InsertAll(a, lo, mid, hi);
  }
}

/**
 parallel_sort of parallel_sort.h on an array of integers.

 The blocks are sorted, and then merged in rounds; the tasks of one phase run on disjoint ranges, and are
 taken here in an order that the statement `:|` leaves open, so the results hold for every order.  steps is
 the vector of block boundaries, from which each round erases the middles.
 */
module ParallelSort {
  import opened RangeSort
  import S = SplitOrder

  /** Boundaries of blocks that tile the first n elements. */
  predicate Tiles(steps: seq<nat>, n: nat) {
    && |steps| >= 2 && steps[0] == 0 && steps[|steps| - 1] == n
    && (forall i, j :: 0 <= i <= j < |steps| ==> steps[i] <= steps[j])
  }

  predicate BlockSorted(s: seq<int>, steps: seq<nat>, b: nat) {
    b + 1 < |steps| ==> SortedIn(s, steps[b], steps[b + 1])
  }

  predicate BlocksSorted(s: seq<int>, steps: seq<nat>) {
    forall b: nat :: b + 1 < |steps| ==> BlockSorted(s, steps, b)
  }

  /** The boundaries that a round leaves: those at even places, and the last. */
  function Halved(steps: seq<nat>): (h: seq<nat>)
    requires |steps| >= 2
    ensures |h| == |steps| / 2 + 1
  {
    seq(|steps| / 2 + 1, i requires 0 <= i <= |steps| / 2 => if 2 * i < |steps| then steps[2 * i] else steps[|steps| - 1])
  }

  /** The elements of steps at even places below pos. */
  function Evens(steps: seq<nat>, pos: nat): (r: seq<nat>)
    requires pos <= |steps|
    ensures |r| == (pos + 1) / 2 && forall i :: 0 <= i < |r| ==> r[i] == steps[2 * i]
  {
    if pos == 0 then [] else Evens(steps, pos - 1) + if pos % 2 == 1 then [steps[pos - 1]] else []
  }

  /** The vector while the loop below has looked at the first pos boundaries. */
  function Partly(steps: seq<nat>, pos: nat): seq<nat>
    requires pos <= |steps|
  {
    Evens(steps, pos) + steps[pos..]
  }

  lemma PartlyKeeps(steps: seq<nat>, pos: nat)
    requires pos + 1 < |steps|
    ensures pos % 2 == 0 ==> Partly(steps, pos + 1) == Partly(steps, pos)
    ensures pos % 2 == 1 ==>
      var i := |Evens(steps, pos)|; Partly(steps, pos + 1) == Partly(steps, pos)[..i] + Partly(steps, pos)[i + 1..]
  {
  }

  lemma PartlyEnds(steps: seq<nat>)
    requires |steps| >= 2
    ensures Partly(steps, |steps| - 1) == Halved(steps)
  {
    var n := |steps|;
    var h, e := Halved(steps), Evens(steps, n - 1);
    assert steps[n - 1..] == [steps[n - 1]];
    Middle(n);
    forall i | 0 <= i < |h| ensures h[i] == (e + [steps[n - 1]])[i] {}
  }

  lemma Middle(n: nat)
    ensures n / 2 * 2 == n || n / 2 * 2 == n - 1
    ensures n > 0 ==> (n - 1 + 1) / 2 == n / 2
  {
  }

  /** Where the loop below stands: at a boundary of an even place, or at one that is to be removed, or at the last. */
  lemma Place(steps: seq<nat>, pos: nat)
    requires pos < |steps|
    ensures var i := |Evens(steps, pos)|;
      && i < |Partly(steps, pos)| && (i + 1 == |Partly(steps, pos)| <==> pos == |steps| - 1)
      && |Evens(steps, pos + 1)| == if pos % 2 == 0 then i + 1 else i
  {
  }

  /** The loop that removes the middles: every second boundary, but never the last. */
  method EraseMiddles(old_steps: seq<nat>) returns (steps: seq<nat>)
    requires |old_steps| >= 2
    ensures steps == Halved(old_steps)
  {
    steps := old_steps;
    var i, pos := 0, 0;
    ghost var last := |old_steps| - 1;
    while i < |steps|
      invariant pos <= |old_steps| && i <= |steps|
      invariant pos <= last ==> steps == Partly(old_steps, pos) && i == |Evens(old_steps, pos)|
      invariant pos == |old_steps| ==> steps == Partly(old_steps, last) && i == |steps|
      decreases |old_steps| - pos
    {
      if pos < last { PartlyKeeps(old_steps, pos); }
      if pos <= last { Place(old_steps, pos); }
      if pos % 2 == 0 || i + 1 == |steps| {
        i := i + 1;
      } else {
        steps := steps[..i] + steps[i + 1..];
      }
      pos := pos + 1;
    }
    PartlyEnds(old_steps);
  }

  lemma HalvedTiles(steps: seq<nat>, n: nat)
    requires Tiles(steps, n)
    ensures Tiles(Halved(steps), n)
  {
  }

  lemma SortedElsewhere(s: seq<int>, s': seq<int>, lo: nat, hi: nat, x: nat, y: nat)
    requires |s'| == |s| && hi <= |s| && y <= |s| && (hi <= x || y <= lo || x >= y)
    requires SortedIn(s, x, y) && forall k :: 0 <= k < |s| && !(lo <= k < hi) ==> s'[k] == s[k]
    ensures SortedIn(s', x, y)
  {
  }

  // ---------------------------------------------------------------- the division into blocks

  function Step(length: nat, threadNum: nat): nat
    requires length > 0 && threadNum > 0
  {
    var step := length / (64 * threadNum);
    if step < 32 then if 32 > length then length else 32 else step
  }

  function DivNum(length: nat, threadNum: nat): (n: nat)
    requires length > 0 && threadNum > 0
    ensures n > 0 && Step(length, threadNum) > 0 && n * Step(length, threadNum) <= length
  {
    var divNum := 64 * threadNum;
    var step := length / divNum;
    if step < 32 then
      var step := if 32 > length then length else 32;
      length / step
    else divNum
  }

  /** Boundary i of n blocks of length step: block 0 takes what the division leaves over. */
  function Boundary(length: nat, step: nat, n: nat, i: nat): int {
    if i == 0 then 0 else length - step * (n - i)
  }

  lemma BoundariesTile(length: nat, step: nat, n: nat, steps: seq<nat>)
    requires n > 0 && n * step <= length && |steps| == n + 1
    requires forall i :: 0 <= i < |steps| ==> steps[i] == Boundary(length, step, n, i)
    ensures Tiles(steps, length)
  {
    forall i, j | 0 <= i <= j < |steps| ensures steps[i] <= steps[j] {
      if i > 0 { TimesGrows(step, n - j, n - i); } else { TimesGrows(step, n - j, n); }
    }
  }

  lemma TimesGrows(c: nat, a: nat, b: nat)
    requires a <= b
    ensures c * a <= c * b
    ensures a + 1 == b ==> c * b == c * a + c
  {
  }

  /** Blocks after the first are step long, and the first one is longer by what the division leaves over. */
  predicate EvenlyCut(steps: seq<nat>, step: nat) {
    forall i :: 1 <= i < |steps| - 1 ==> steps[i + 1] == steps[i] + step
  }

  lemma BoundariesEven(length: nat, step: nat, n: nat, steps: seq<nat>)
    requires n > 0 && |steps| == n + 1
    requires forall i :: 0 <= i < |steps| ==> steps[i] == Boundary(length, step, n, i)
    ensures EvenlyCut(steps, step)
  {
    forall i | 1 <= i < |steps| - 1 ensures steps[i + 1] == steps[i] + step {
      TimesGrows(step, n - i - 1, n - i);
    }
  }

  /** The vector of boundaries, built as the tasks are made. */
  method Boundaries(length: nat, step: nat, divNum: nat) returns (steps: seq<nat>)
    requires divNum > 0 && divNum * step <= length
    ensures |steps| == divNum + 1 && Tiles(steps, length)
    ensures EvenlyCut(steps, step) && steps[1] == step + (length - divNum * step)
  {
    var first := step + (length - step * divNum);
    steps := [0];
    var pos := first;
    steps := steps + [first];
    var i := 1;
    TimesGrows(step, divNum - 1, divNum);
    while i < divNum
      invariant 1 <= i <= divNum && |steps| == i + 1 && pos == length - step * (divNum - i)
      invariant forall k :: 0 <= k < |steps| ==> steps[k] == Boundary(length, step, divNum, k)
    {
      TimesGrows(step, divNum - (i + 1), divNum - i);
      TimesGrows(step, divNum - (i + 1), divNum);
      pos := pos + step;
      steps := steps + [pos];
      i := i + 1;
    }
    BoundariesTile(length, step, divNum, steps);
    BoundariesEven(length, step, divNum, steps);
  }

  /** The number of blocks and their length, in plain terms: 64 blocks a thread if that leaves 32 elements for each, or
      else as many blocks of 32 as there are, and one block for fewer than 32 elements. */
  lemma BlocksAre(length: nat, threadNum: nat)
    requires length > 0 && threadNum > 0
    ensures var n := DivNum(length, threadNum);
      && (n == 64 * threadNum <==> length >= 2048 * threadNum)
      && (n != 64 * threadNum ==> if length < 32 then n == 1 else 32 * n <= length < 32 * (n + 1))
    ensures Step(length, threadNum) == if length >= 2048 * threadNum then length / (64 * threadNum) else if length < 32 then length else 32
  {
    LongEnough(length, 64 * threadNum);
    if length >= 2048 * threadNum { ManyBlocks(length, threadNum); } else { FewBlocks(length, threadNum); }
  }

  lemma ManyBlocks(length: nat, threadNum: nat)
    requires length > 0 && threadNum > 0 && length / (64 * threadNum) >= 32
    ensures DivNum(length, threadNum) == 64 * threadNum && Step(length, threadNum) == length / (64 * threadNum)
  {
  }

  lemma FewBlocks(length: nat, threadNum: nat)
    requires length > 0 && threadNum > 0 && length / (64 * threadNum) < 32
    ensures DivNum(length, threadNum) == if length < 32 then 1 else length / 32
    ensures Step(length, threadNum) == if length < 32 then length else 32
  {
  }

  lemma LongEnough(length: nat, d: nat)
    requires d > 0
    ensures length / d >= 32 <==> length >= 32 * d
    ensures length < 32 * d ==> length / 32 < d
  {
    var q := length / d;
    Division(length, d, q);
    if q >= 32 { TimesGrows(d, 32, q); } else { TimesGrows(d, q + 1, 32); }
  }

  lemma Division(a: nat, d: nat, q: nat)
    requires d > 0 && q == a / d
    ensures d * q <= a < d * (q + 1)
  {
    assert d * (q + 1) == d * q + d;
  }

  /** How the range is divided. */
  method Divide(length: nat, threadNum: nat) returns (steps: seq<nat>)
    requires length > 0 && threadNum > 0
    ensures |steps| >= 2 && Tiles(steps, length)
    ensures |steps| - 1 == 64 * threadNum <==> length >= 2048 * threadNum
    ensures length < 32 ==> steps == [0, length]
    ensures 32 <= length < 2048 * threadNum ==> 32 * (|steps| - 1) <= length < 32 * |steps|
    ensures 32 <= length < 2048 * threadNum ==>
      steps[1] == 32 + length % 32 && forall i :: 1 <= i < |steps| - 1 ==> steps[i + 1] == steps[i] + 32
    ensures length >= 2048 * threadNum ==>
      var step := length / (|steps| - 1);
      steps[1] == step + length % (|steps| - 1) && forall i :: 1 <= i < |steps| - 1 ==> steps[i + 1] == steps[i] + step
    ensures |steps| == DivNum(length, threadNum) + 1
  {
    var divNum := 64 * threadNum;
    var step := length / divNum;
    BlocksAre(length, threadNum);
    if step < 32 {
      step := 32;
      if 32 > length { step := length; }
      divNum := length / step;
    }
    steps := Boundaries(length, step, divNum);
  }

  // ---------------------------------------------------------------- the two kinds of phases

  /** The task numbers below n. */
  function UpTo(n: nat): (r: set<nat>)
    ensures forall i :: i in r <==> 0 <= i < n
  {
    if n == 0 then {} else UpTo(n - 1) + {n - 1}
  }

  /** The sort tasks, one a block, in any order. */
  method SortBlocks(a: array<int>, steps: seq<nat>)
    requires Tiles(steps, a.Length)
    modifies a
    ensures BlocksSorted(a[..], steps) && multiset(a[..]) == multiset(old(a[..]))
  {
    var pending := UpTo(|steps| - 1);
    while pending != {}
      invariant forall i :: i in pending ==> 0 <= i < |steps| - 1
      invariant forall b: nat :: b + 1 < |steps| && b !in pending ==> BlockSorted(a[..], steps, b)
      invariant multiset(a[..]) == multiset(old(a[..]))
      decreases |pending|
    {
      var i :| i in pending;
      ghost var before := a[..];
      Sort(a, steps[i], steps[i + 1]);
      forall b: nat | b + 1 < |steps| && b !in pending - {i} ensures BlockSorted(a[..], steps, b) {
        if b != i {
          assert BlockSorted(before, steps, b);
          Apart(steps, b, i, 1);
          SortedElsewhere(before, a[..], steps[i], steps[i + 1], steps[b], steps[b + 1]);
        }
      }
      pending := pending - {i};
    }
  }

  /** Ranges of width 1 at b and of width w at i do not overlap, unless b lies inside. */
  lemma Apart(steps: seq<nat>, b: nat, i: nat, w: nat)
    requires b + 1 < |steps| && i + w < |steps| && (b < i || b >= i + w)
    requires forall x, y :: 0 <= x <= y < |steps| ==> steps[x] <= steps[y]
    ensures steps[b + 1] <= steps[i] || steps[i + w] <= steps[b]
  {
  }

  predicate PairMerged(s: seq<int>, steps: seq<nat>, i: nat) {
    2 * i + 2 < |steps| ==> SortedIn(s, steps[2 * i], steps[2 * i + 2])
  }

  /** The merge tasks of one round: task number i is kept in slot i of the vector that was made for the first round. */
  method MergePairs(a: array<int>, steps: seq<nat>, tasks: array<(nat, nat, nat)>)
    requires Tiles(steps, a.Length) && |steps| > 2 && BlocksSorted(a[..], steps) && tasks.Length >= (|steps| - 1) / 2
    modifies a, tasks
    ensures BlocksSorted(a[..], Halved(steps)) && multiset(a[..]) == multiset(old(a[..]))
  {
    var pos := 0;
    while pos < |steps| - 2
      invariant pos % 2 == 0 && pos <= |steps| - 1 && a[..] == old(a[..])
      invariant forall i {:trigger tasks[i]} :: 0 <= i < pos / 2 ==> tasks[i] == (steps[2 * i], steps[2 * i + 1], steps[2 * i + 2])
    {
      tasks[pos / 2] := (steps[pos], steps[pos + 1], steps[pos + 2]);
      pos := pos + 2;
    }
    RunMerges(a, steps, tasks, pos / 2);
    forall b: nat | b + 1 < |Halved(steps)| ensures BlockSorted(a[..], Halved(steps), b) {
      assert PairMerged(a[..], steps, b);
      assert 2 * b + 2 == |steps| ==> BlockSorted(a[..], steps, 2 * b);
    }
  }

  /** Where a round of n merges stands: the pairs that are not pending are merged, the other blocks are as before. */
  ghost predicate RoundSoFar(s: seq<int>, steps: seq<nat>, n: nat, pending: set<nat>) {
    && (forall i: nat :: i < n && i !in pending ==> PairMerged(s, steps, i))
    && (forall b: nat :: b + 1 < |steps| && (b / 2 in pending || b >= 2 * n) ==> BlockSorted(s, steps, b))
  }

  lemma AfterMerge(s: seq<int>, s': seq<int>, steps: seq<nat>, n: nat, pending: set<nat>, i: nat)
    requires Tiles(steps, |s|) && n == (|steps| - 1) / 2 && RoundSoFar(s, steps, n, pending) && i in pending && i < n
    requires |s'| == |s| && SortedIn(s', steps[2 * i], steps[2 * i + 2])
    requires forall k :: 0 <= k < |s| && !(steps[2 * i] <= k < steps[2 * i + 2]) ==> s'[k] == s[k]
    ensures RoundSoFar(s', steps, n, pending - {i})
  {
    forall j: nat | j < n && j !in pending - {i} ensures PairMerged(s', steps, j) {
      if j != i {
        assert PairMerged(s, steps, j);
        PairsApart(steps, i, j);
        SortedElsewhere(s, s', steps[2 * i], steps[2 * i + 2], steps[2 * j], steps[2 * j + 2]);
      }
    }
    forall b: nat | b + 1 < |steps| && (b / 2 in pending - {i} || b >= 2 * n) ensures BlockSorted(s', steps, b) {
      assert BlockSorted(s, steps, b);
      Apart(steps, b, 2 * i, 2);
      SortedElsewhere(s, s', steps[2 * i], steps[2 * i + 2], steps[b], steps[b + 1]);
    }
  }

  method RunMerges(a: array<int>, steps: seq<nat>, tasks: array<(nat, nat, nat)>, n: nat)
    requires Tiles(steps, a.Length) && BlocksSorted(a[..], steps) && n == (|steps| - 1) / 2 <= tasks.Length
    requires forall i :: 0 <= i < n ==> tasks[i] == (steps[2 * i], steps[2 * i + 1], steps[2 * i + 2])
    modifies a
    ensures RoundSoFar(a[..], steps, n, {})
    ensures multiset(a[..]) == multiset(old(a[..]))
  {
    var pending := UpTo(n);
    while pending != {}
      invariant forall i :: i in pending ==> 0 <= i < n
      invariant RoundSoFar(a[..], steps, n, pending)
      invariant multiset(a[..]) == multiset(old(a[..]))
      decreases |pending|
    {
      var i :| i in pending;
      ghost var before := a[..];
      assert BlockSorted(before, steps, 2 * i) && BlockSorted(before, steps, 2 * i + 1);
      InplaceMerge(a, tasks[i].0, tasks[i].1, tasks[i].2);
      AfterMerge(before, a[..], steps, n, pending, i);
      pending := pending - {i};
    }
  }

  lemma PairsApart(steps: seq<nat>, i: nat, j: nat)
    requires 2 * i + 2 < |steps| && 2 * j + 2 < |steps| && i != j
    requires forall x, y :: 0 <= x <= y < |steps| ==> steps[x] <= steps[y]
    ensures steps[2 * j + 2] <= steps[2 * i] || steps[2 * i + 2] <= steps[2 * j]
  {
  }

  // ---------------------------------------------------------------- the whole

  /** Rounds of halving k blocks into one. */
  function Rounds(k: nat): nat {
    if k <= 1 then 0 else 1 + Rounds((k + 1) / 2)
  }

  /** That is the logarithm of k, rounded up. */
  lemma {:induction false} RoundsAreLogarithm(k: nat)
    requires k > 0
    ensures k <= S.Pow2(Rounds(k)) && (Rounds(k) > 0 ==> S.Pow2(Rounds(k) - 1) < k)
  {
    if k > 1 {
      RoundsAreLogarithm((k + 1) / 2);
      if k == 2 { assert Rounds(1) == 0; }
    }
  }

  /** The array ends up sorted, a rearrangement of what it was, after about log2 of the number of blocks rounds. */
  method Run(a: array<int>, threadNum: nat) returns (rounds: nat)
    requires a.Length > 0 && threadNum > 0
    modifies a
    ensures SortedIn(a[..], 0, a.Length) && multiset(a[..]) == multiset(old(a[..]))
    ensures a.Length >= 2048 * threadNum ==> rounds == Rounds(64 * threadNum)
    ensures 32 <= a.Length < 2048 * threadNum ==> rounds == Rounds(a.Length / 32)
    ensures a.Length < 32 ==> rounds == 0
  {
    var steps := Divide(a.Length, threadNum);
    ghost var blocks := |steps| - 1;
    SortBlocks(a, steps);
    var tasks := new (nat, nat, nat)[(|steps| - 1) / 2](_ => (0, 0, 0));
    rounds := 0;
    while |steps| > 2
      invariant Tiles(steps, a.Length) && BlocksSorted(a[..], steps) && tasks.Length >= (|steps| - 1) / 2
      invariant multiset(a[..]) == multiset(old(a[..])) && fresh(tasks)
      invariant rounds + Rounds(|steps| - 1) == Rounds(blocks)
      decreases |steps|
    {
      MergePairs(a, steps, tasks);
      HalvedTiles(steps, a.Length);
      steps := EraseMiddles(steps);
      rounds := rounds + 1;
    }
    assert BlockSorted(a[..], steps, 0);
  }
}
