/**
 The skip-list priority queue of lockfree_priorityqueue.h, for calls that do not overlap: then no traversal
 meets a node that is being deleted, and the helping paths are not taken.

 Nodes are numbers; after the null pointer come head, tail and the INVALID node.  An element has a priority, by which
 elements are compared, and a tag that comparisons do not see.  lists holds, as a ghost, the nodes of each
 level in order.
 */
module SkipQueue {

  const MAXLEVEL := 10

  type Ptr = nat
  const NULL: Ptr := 0
  const HEAD: Ptr := 1
  const TAIL: Ptr := 2
  const INVALID: Ptr := 3

  datatype Elem = Elem(prio: int, tag: int)

  // ---------------------------------------------------------------- random levels

  /** Shifting an int to the right keeps its sign. */
  function ShiftRight(x: bv32, n: nat): bv32
    requires n == 1 || n == 17
  {
    if x & 0x8000_0000 == 0 then x >> n
    else if n == 1 then (x >> 1) | 0x8000_0000
    else (x >> 17) | 0xffff_8000
  }

  predicate Bit(x: bv32, i: nat)
    requires i < 32
  {
    (x >> i) & 1 != 0
  }

  predicate Odd(x: bv32) { x & 1 != 0 }

  /** x shifted to the right i times. */
  function Shifted(x: bv32, i: nat): bv32 {
    if i == 0 then x else ShiftRight(Shifted(x, i - 1), 1)
  }

  lemma ShiftedBit(x: bv32, i: nat)
    requires i < MAXLEVEL
    ensures Bit(ShiftRight(x, 1), i) == Bit(x, i + 1)
  {
    if i == 0 {} else if i == 1 {} else if i == 2 {} else if i == 3 {} else if i == 4 {}
    else if i == 5 {} else if i == 6 {} else if i == 7 {} else if i == 8 {} else {}
  }

  lemma {:induction false} ShiftedIs(x: bv32, i: nat, j: nat)
    requires i + j <= MAXLEVEL
    ensures Bit(Shifted(x, i), j) == Bit(x, i + j)
  {
    if i > 0 {
      ShiftedBit(Shifted(x, i - 1), j);
      ShiftedIs(x, i - 1, j + 1);
    }
  }

  lemma OddIs(x: bv32, i: nat)
    requires i <= MAXLEVEL
    ensures Odd(Shifted(x, i)) == Bit(x, i)
  {
    ShiftedIs(x, i, 0);
    LowestBit(Shifted(x, i));
  }

  lemma LowestBit(x: bv32)
    ensures Bit(x, 0) == Odd(x)
  {
  }

  function XorLeft(x: bv32, n: nat): bv32
    requires n == 13 || n == 5
  {
    if n == 13 then x ^ (x << 13) else x ^ (x << 5)
  }

  function XorRight(x: bv32): bv32 { x ^ ShiftRight(x, 17) }

  /** randomLevel: one more level for each one bit in a row, from bit 1 of the new seed up, but at most MAXLEVEL - 1. */
  method RandomLevel(seed: bv32) returns (level: nat, seed': bv32)
    ensures 1 <= level <= MAXLEVEL - 1 && seed' == XorLeft(XorRight(XorLeft(seed, 13)), 5)
    ensures forall i :: 1 <= i < level ==> Bit(seed', i)
    ensures level < MAXLEVEL - 1 ==> !Bit(seed', level)
  {
    var x := seed;
    x := XorLeft(x, 13);
    x := XorRight(x);
    x := XorLeft(x, 5);
    seed' := x;
    level := CountBits(x);
    BitsAre(x, level);
  }

  lemma BitsAre(x: bv32, level: nat)
    requires 1 <= level <= MAXLEVEL - 1
    ensures forall i :: 1 <= i <= level ==> Odd(Shifted(x, i)) == Bit(x, i)
  {
    forall i | 1 <= i <= level ensures Odd(Shifted(x, i)) == Bit(x, i) { OddIs(x, i); }
  }

  /** The level that a seed stands for. */
  predicate IsLevel(level: nat, seed: bv32) {
    && 1 <= level <= MAXLEVEL - 1
    && (forall i :: 1 <= i < level ==> Bit(seed, i)) && (level < MAXLEVEL - 1 ==> !Bit(seed, level))
  }

  method CountBits(seed: bv32) returns (level: nat)
    ensures 1 <= level <= MAXLEVEL - 1
    ensures forall i :: 1 <= i < level ==> Odd(Shifted(seed, i))
    ensures level < MAXLEVEL - 1 ==> !Odd(Shifted(seed, level))
  {
    level := 1;
    var x := ShiftRight(seed, 1);
    assert x == Shifted(seed, 1) by { assert Shifted(seed, 0) == seed; }
    while Odd(x) && level < MAXLEVEL - 1
      invariant 1 <= level <= MAXLEVEL - 1 && x == Shifted(seed, level)
      invariant forall i :: 1 <= i < level ==> Odd(Shifted(seed, i))
      decreases MAXLEVEL - level
    {
      level := level + 1;
      x := ShiftRight(x, 1);
    }
  }

  /** The constructor sees to it that the first seed is not zero, because zero would stay zero.  But the shift to the right
      keeps the sign, so one other seed leads to zero too, after which every level is 1. */
  lemma {:induction false} SeedVanishesAt(seed: bv32)
    ensures XorLeft(XorRight(XorLeft(seed, 13)), 5) == 0 <==> seed == 0 || seed == 0xfc00_1fff
    ensures !Bit(0, 1)
  {
    Left5(XorRight(XorLeft(seed, 13)));
    Right17(XorLeft(seed, 13));
    Left13(seed);
  }

  lemma {:induction false} Left5(x: bv32)
    ensures XorLeft(x, 5) == 0 <==> x == 0
  {
  }

  lemma {:induction false} Left13(x: bv32)
    ensures XorLeft(x, 13) == 0 <==> x == 0
    ensures XorLeft(x, 13) == 0xffff_ffff <==> x == 0xfc00_1fff
  {
  }

  lemma {:induction false} Right17(x: bv32)
    ensures XorRight(x) == 0 <==> x == 0 || x == 0xffff_ffff
  {
    if x & 0x8000_0000 == 0 { RightPlus(x); } else { RightMinus(x); }
  }

  lemma {:induction false} RightPlus(x: bv32)
    ensures x ^ (x >> 17) == 0 <==> x == 0
  {
  }

  lemma {:induction false} RightMinus(x: bv32)
    requires x & 0x8000_0000 != 0
    ensures x ^ ((x >> 17) | 0xffff_8000) == 0 <==> x == 0xffff_ffff
  {
  }

  // ---------------------------------------------------------------- specification

  /** Elements in increasing order of priority, no two with the same. */
  predicate Increasing(s: seq<Elem>) {
    forall i, j :: 0 <= i < j < |s| ==> s[i].prio < s[j].prio
  }

  /** What insert does: an element of equal priority keeps its place and gets the new value. */
  function InsertInto(s: seq<Elem>, e: Elem): seq<Elem> {
    if s == [] then [e]
    else if s[0].prio < e.prio then [s[0]] + InsertInto(s[1..], e)
    else if s[0].prio == e.prio then [e] + s[1..]
    else [e] + s
  }

  lemma {:induction false} InsertIntoIs(s: seq<Elem>, e: Elem, j: nat)
    requires Increasing(s) && j <= |s|
    requires forall i :: 0 <= i < j ==> s[i].prio < e.prio
    requires j < |s| ==> e.prio <= s[j].prio
    ensures InsertInto(s, e) == if j < |s| && s[j].prio == e.prio then s[j := e] else s[..j] + [e] + s[j..]
  {
    if j > 0 {
      InsertIntoIs(s[1..], e, j - 1);
      assert s == [s[0]] + s[1..];
    }
  }

  /** The set of elements after insert: the new one, and the others of different priority. */
  lemma {:induction false} InsertIntoMembers(s: seq<Elem>, e: Elem)
    requires Increasing(s)
    ensures Increasing(InsertInto(s, e))
    ensures forall x :: x in InsertInto(s, e) <==> x == e || (x in s && x.prio != e.prio)
  {
    if s != [] {
      var rest := s[1..];
      assert s == [s[0]] + rest;
      FirstIsLeast(s);
      if s[0].prio < e.prio {
        InsertIntoMembers(rest, e);
        var t := InsertInto(rest, e);
        forall i | 0 <= i < |t| ensures s[0].prio < t[i].prio { assert t[i] in t; }
      }
    }
  }

  lemma FirstIsLeast(s: seq<Elem>)
    requires Increasing(s) && s != []
    ensures Increasing(s[1..]) && forall x :: x in s[1..] ==> s[0].prio < x.prio
    ensures forall x :: x in s <==> x == s[0] || x in s[1..]
  {
    assert s == [s[0]] + s[1..];
  }

  // ---------------------------------------------------------------- the queue

  /** The node at place j of a level, with head in front and tail behind. */
  function At(list: seq<Ptr>, j: int): Ptr {
    if j < 0 then HEAD else if j < |list| then list[j] else TAIL
  }

  datatype Node = Node(elem: Elem, marked: bool, level: nat, next: seq<Ptr>, nextMarked: seq<bool>)

  predicate Sized(nodes: seq<Node>) {
    |nodes| >= 4 && forall p :: 0 <= p < |nodes| ==>
      |nodes[p].next| == |nodes[p].nextMarked| == MAXLEVEL && nodes[p].level < MAXLEVEL
  }

  function Prio(nodes: seq<Node>, p: Ptr): int { if p < |nodes| then nodes[p].elem.prio else 0 }

  /** p may be in front of an element of this priority. */
  predicate InFront(nodes: seq<Node>, list: seq<Ptr>, p: Ptr, key: int) {
    p == HEAD || (p in list && Prio(nodes, p) < key)
  }

  ghost predicate Ordered(nodes: seq<Node>, list: seq<Ptr>) {
    forall j, k :: 0 <= j < k < |list| ==> Prio(nodes, list[j]) < Prio(nodes, list[k])
  }

  ghost predicate Linked(nodes: seq<Node>, i: nat, list: seq<Ptr>)
    requires Sized(nodes) && i < MAXLEVEL
  {
    && (forall j :: 0 <= j < |list| ==> 3 < list[j] < |nodes|)
    && (forall j :: 0 <= j <= |list| ==> NextAt(nodes, At(list, j - 1), i) == At(list, j))
  }

  predicate Present(nodes: seq<Node>, i: nat, p: Ptr)
    requires Sized(nodes) && i < MAXLEVEL
  {
    p < |nodes| && (p == HEAD || i < nodes[p].level)
  }

  /** p is not being deleted, as far as level i can tell. */
  predicate Clear(nodes: seq<Node>, i: nat, p: Ptr)
    requires Sized(nodes) && i < MAXLEVEL
  {
    p < |nodes| && !nodes[p].marked && !nodes[p].nextMarked[i]
  }

  /** A walk on level i to this priority meets no node that is being deleted. */
  ghost predicate ClearBelow(nodes: seq<Node>, i: nat, list: seq<Ptr>, key: int)
    requires Sized(nodes) && i < MAXLEVEL
  {
    Clear(nodes, i, HEAD) && forall q :: q in list && Prio(nodes, q) < key ==> Clear(nodes, i, q)
  }

  /** No node of the level is being deleted. */
  ghost predicate AllClear(nodes: seq<Node>, i: nat, list: seq<Ptr>)
    requires Sized(nodes) && i < MAXLEVEL
  {
    Clear(nodes, i, HEAD) && forall q :: q in list ==> Clear(nodes, i, q)
  }

  /** Level i is the list from head to tail through these nodes, in increasing order of priority. */
  ghost predicate LevelOk(nodes: seq<Node>, i: nat, list: seq<Ptr>)
    requires Sized(nodes) && i < MAXLEVEL
  {
    && Linked(nodes, i, list) && Ordered(nodes, list)
    && Present(nodes, i, HEAD) && forall j :: 0 <= j < |list| ==> Present(nodes, i, list[j])
  }

  function NextAt(nodes: seq<Node>, p: Ptr, i: nat): Ptr
    requires Sized(nodes) && i < MAXLEVEL
  {
    if p < |nodes| then nodes[p].next[i] else TAIL
  }

  function SetNext(nodes: seq<Node>, p: Ptr, i: nat, q: Ptr): (r: seq<Node>)
    requires Sized(nodes) && i < MAXLEVEL && p < |nodes|
    ensures Sized(r) && |r| == |nodes|
  {
    nodes[p := nodes[p].(next := nodes[p].next[i := q])]
  }

  function SetNextMark(nodes: seq<Node>, p: Ptr, i: nat): (r: seq<Node>)
    requires Sized(nodes) && i < MAXLEVEL && p < |nodes|
    ensures Sized(r) && |r| == |nodes|
  {
    nodes[p := nodes[p].(nextMarked := nodes[p].nextMarked[i := true])]
  }

  function InsertAt(s: seq<Ptr>, j: nat, p: Ptr): seq<Ptr>
    requires j <= |s|
  {
    s[..j] + [p] + s[j..]
  }

  lemma InsertAtIs(s: seq<Ptr>, j: nat, p: Ptr)
    requires j <= |s|
    ensures var r := InsertAt(s, j, p);
      |r| == |s| + 1 && forall k {:trigger r[k]} :: 0 <= k < |r| ==> r[k] == if k < j then s[k] else if k == j then p else s[k - 1]
    ensures forall x :: x in InsertAt(s, j, p) <==> x in s || x == p
  {
    var r := InsertAt(s, j, p);
    assert r[j] == p;
    forall x | x in s ensures x in r {
      var k :| 0 <= k < |s| && s[k] == x;
      assert r[if k < j then k else k + 1] == x;
    }
  }

  /** Memory after node p has been linked in behind place j - 1. */
  function LinkAt(nodes: seq<Node>, i: nat, list: seq<Ptr>, j: nat, p: Ptr): (r: seq<Node>)
    requires Sized(nodes) && i < MAXLEVEL && p < |nodes| && At(list, j - 1) < |nodes|
    ensures Sized(r) && |r| == |nodes|
  {
    SetNext(SetNext(nodes, p, i, At(list, j)), At(list, j - 1), i, p)
  }

  lemma LinkAtLinks(nodes: seq<Node>, i: nat, list: seq<Ptr>, j: nat, p: Ptr)
    requires Sized(nodes) && i < MAXLEVEL && Linked(nodes, i, list) && Ordered(nodes, list) && j <= |list|
    requires 3 < p < |nodes| && p !in list && At(list, j - 1) < |nodes|
    ensures Linked(LinkAt(nodes, i, list, j, p), i, InsertAt(list, j, p))
  {
    var r, list' := LinkAt(nodes, i, list, j, p), InsertAt(list, j, p);
    InsertAtIs(list, j, p);
    forall k | 0 <= k <= |list'| ensures NextAt(r, At(list', k - 1), i) == At(list', k) {
      if k < j { assert NextAt(nodes, At(list, k - 1), i) == At(list, k); }
      else if k > j + 1 { assert NextAt(nodes, At(list, k - 2), i) == At(list, k - 1); }
    }
  }

  lemma InsertAtOrders(nodes: seq<Node>, list: seq<Ptr>, j: nat, p: Ptr)
    requires Ordered(nodes, list) && j <= |list|
    requires forall k :: 0 <= k < j ==> Prio(nodes, list[k]) < Prio(nodes, p)
    requires forall k :: j <= k < |list| ==> Prio(nodes, p) < Prio(nodes, list[k])
    ensures Ordered(nodes, InsertAt(list, j, p))
  {
    InsertAtIs(list, j, p);
  }

  /** Setting next fields leaves everything else. */
  predicate SameButNext(nodes: seq<Node>, r: seq<Node>) {
    |r| == |nodes| && forall q :: 0 <= q < |nodes| ==> r[q] == nodes[q].(next := r[q].next)
  }

  lemma SameButNextKeeps(nodes: seq<Node>, r: seq<Node>, i: nat, list: seq<Ptr>)
    requires Sized(nodes) && Sized(r) && SameButNext(nodes, r) && i < MAXLEVEL
    ensures Ordered(nodes, list) ==> Ordered(r, list)
    ensures forall q :: Present(nodes, i, q) ==> Present(r, i, q)
    ensures forall q :: Clear(nodes, i, q) ==> Clear(r, i, q)
  {
    forall q ensures Prio(r, q) == Prio(nodes, q) {}
  }

  /** Node p, which is in no list at level i yet, is linked in at place j. */
  lemma LinkIn(nodes: seq<Node>, i: nat, list: seq<Ptr>, j: nat, p: Ptr)
    requires Sized(nodes) && i < MAXLEVEL && LevelOk(nodes, i, list) && j <= |list|
    requires 3 < p < |nodes| && p !in list && Present(nodes, i, p)
    requires forall k :: 0 <= k < j ==> Prio(nodes, list[k]) < Prio(nodes, p)
    requires forall k :: j <= k < |list| ==> Prio(nodes, p) < Prio(nodes, list[k])
    ensures At(list, j - 1) < |nodes| && LevelOk(LinkAt(nodes, i, list, j, p), i, InsertAt(list, j, p))
  {
    var r, list' := LinkAt(nodes, i, list, j, p), InsertAt(list, j, p);
    LinkAtLinks(nodes, i, list, j, p);
    InsertAtOrders(nodes, list, j, p);
    SameButNextKeeps(nodes, r, i, list');
    InsertAtIs(list, j, p);
    forall k | 0 <= k < |list'| ensures Present(r, i, list'[k]) { assert Present(nodes, i, list'[k]); }
  }

  /** The first node of level i is cut out. */
  lemma CutFirst(nodes: seq<Node>, i: nat, list: seq<Ptr>)
    requires Sized(nodes) && i < MAXLEVEL && LevelOk(nodes, i, list) && list != []
    ensures LevelOk(SetNext(SetNext(nodes, HEAD, i, NextAt(nodes, list[0], i)), list[0], i, INVALID), i, list[1..])
  {
    var r := SetNext(SetNext(nodes, HEAD, i, NextAt(nodes, list[0], i)), list[0], i, INVALID);
    var list' := list[1..];
    forall k | 0 <= k <= |list'| ensures NextAt(r, At(list', k - 1), i) == At(list', k) {
      assert NextAt(nodes, At(list, k), i) == At(list, k + 1);
    }
  }

  /** A level does not notice what happens to other levels, and to nodes that are not on it. */
  lemma LevelUntouched(nodes: seq<Node>, r: seq<Node>, i: nat, list: seq<Ptr>)
    requires Sized(nodes) && Sized(r) && i < MAXLEVEL && LevelOk(nodes, i, list) && |nodes| <= |r|
    requires forall p :: p in list || p == HEAD ==>
      p < |nodes| && r[p].next[i] == nodes[p].next[i] && r[p].level == nodes[p].level && r[p].elem.prio == nodes[p].elem.prio
    ensures LevelOk(r, i, list)
  {
    forall j | 0 <= j <= |list| ensures NextAt(r, At(list, j - 1), i) == At(list, j) {
      assert NextAt(nodes, At(list, j - 1), i) == At(list, j);
    }
  }

  lemma PlaceOf(nodes: seq<Node>, i: nat, list: seq<Ptr>, node: Ptr, key: int) returns (j: nat)
    requires Sized(nodes) && i < MAXLEVEL && LevelOk(nodes, i, list) && InFront(nodes, list, node, key)
    ensures j <= |list| && node == At(list, j - 1) && (j > 0 ==> Prio(nodes, list[j - 1]) < key)
  {
    if node == HEAD { j := 0; } else {
      var k :| 0 <= k < |list| && list[k] == node;
      j := k + 1;
    }
  }

  /** Where a walk along level i stands: at the node in front of place j, and everything so far is smaller. */
  ghost predicate WalkedTo(nodes: seq<Node>, i: nat, list: seq<Ptr>, j: nat, key: int, node1: Ptr, node2: Ptr) {
    j <= |list| && node1 == At(list, j - 1) && node2 == At(list, j) && (j > 0 ==> Prio(nodes, list[j - 1]) < key)
  }

  lemma WalkOn(nodes: seq<Node>, i: nat, list: seq<Ptr>, j: nat, key: int, node1: Ptr, node2: Ptr)
    requires Sized(nodes) && i < MAXLEVEL && LevelOk(nodes, i, list) && WalkedTo(nodes, i, list, j, key, node1, node2)
    ensures node2 != TAIL <==> j < |list|
    ensures node1 < |nodes| && nodes[node1].next[i] == node2
    ensures node2 != TAIL ==> node2 < |nodes| && nodes[node2].next[i] == At(list, j + 1)
  {
    assert NextAt(nodes, At(list, j - 1), i) == At(list, j);
    if j < |list| { assert NextAt(nodes, At(list, j), i) == At(list, j + 1); }
  }

  lemma WalkEnds(nodes: seq<Node>, i: nat, list: seq<Ptr>, j: nat, key: int, node1: Ptr, node2: Ptr)
    requires Sized(nodes) && i < MAXLEVEL && LevelOk(nodes, i, list) && WalkedTo(nodes, i, list, j, key, node1, node2)
    requires j < |list| ==> Prio(nodes, list[j]) >= key
    ensures forall k :: 0 <= k < j ==> Prio(nodes, list[k]) < key
    ensures forall k :: j <= k < |list| ==> Prio(nodes, list[k]) >= key
    ensures InFront(nodes, list, node1, key)
  {
  }

  class PriorityQueue {
    var nodes: seq<Node>
    var randomSeed: bv32
    ghost var lists: seq<seq<Ptr>>

    ghost predicate Levels()
      reads this
    {
      Sized(nodes) && |lists| == MAXLEVEL && forall i :: 0 <= i < MAXLEVEL ==> LevelOk(nodes, i, lists[i])
    }

    /** Each level is sorted and holds the nodes of level 0 that are tall enough. */
    ghost predicate Valid()
      reads this
    {
      && Levels() && (forall i :: 0 <= i < MAXLEVEL ==> AllClear(nodes, i, lists[i]))
      && forall i, p :: 0 <= i < MAXLEVEL ==> (p in lists[i] <==> p in lists[0] && i < nodes[p].level)
    }

    ghost function Contents(): seq<Elem>
      reads this
      requires Levels()
    {
      ElemsOf(nodes, lists[0])
    }

    constructor (seed: bv32)
      ensures Valid() && Contents() == []
    {
      var none: seq<bool> := seq(MAXLEVEL, _ => false);
      var unused := Node(Elem(0, 0), false, 0, seq(MAXLEVEL, _ => NULL), none);
      nodes := [unused, unused.(next := seq(MAXLEVEL, _ => TAIL)), unused, unused];
      randomSeed := seed;
      lists := seq(MAXLEVEL, _ => []);
    }

    /** The last node of level i in front of key, and the node behind it; the walk starts at a node in front of key. */
    method ScanKey(node: Ptr, i: nat, key: int) returns (node1: Ptr, node2: Ptr, ghost j: nat)
      requires Levels() && i < MAXLEVEL && InFront(nodes, lists[i], node, key) && ClearBelow(nodes, i, lists[i], key)
      ensures j <= |lists[i]| && node1 == At(lists[i], j - 1) && node2 == At(lists[i], j)
      ensures forall k :: 0 <= k < j ==> Prio(nodes, lists[i][k]) < key
      ensures forall k :: j <= k < |lists[i]| ==> Prio(nodes, lists[i][k]) >= key
      ensures InFront(nodes, lists[i], node1, key) && node1 < |nodes|
      ensures node2 != TAIL <==> j < |lists[i]|
    {
      ghost var list := lists[i];
      node1 := node;
      j := PlaceOf(nodes, i, list, node, key);
      WalkOn(nodes, i, list, j, key, node1, At(list, j));
      node2 := nodes[node1].next[i];
      while node2 != TAIL && nodes[node2].elem.prio < key
        invariant WalkedTo(nodes, i, list, j, key, node1, node2)
        invariant node1 < |nodes| && (node2 != TAIL ==> j < |list| && node2 < |nodes|)
        decreases |list| - j
      {
        // readNext has nothing to help with
        assert node1 == HEAD || node1 in list;
        assert Clear(nodes, i, node1);
        WalkOn(nodes, i, list, j, key, node1, node2);
        node1 := node2;
        j := j + 1;
        node2 := nodes[node1].next[i];
        WalkOn(nodes, i, list, j, key, node1, node2);
      }
      WalkOn(nodes, i, list, j, key, node1, node2);
      WalkEnds(nodes, i, list, j, key, node1, node2);
    }

    /** While node p is being linked in: it is on the levels below n, everything else is as in a valid queue. */
    ghost predicate Growing(p: Ptr, n: nat)
      reads this
    {
      && Levels() && 3 < p < |nodes| && (forall i :: 0 <= i < MAXLEVEL ==> AllClear(nodes, i, lists[i]) && Clear(nodes, i, p))
      && forall i, q :: 0 <= i < MAXLEVEL ==>
           (q in lists[i] <==> if q == p then i < n else q in lists[0] && i < nodes[q].level)
    }

    /** Node p goes to place j of level i. */
    method LinkNode(p: Ptr, i: nat, node1: Ptr, node2: Ptr, ghost j: nat)
      requires Levels() && i < MAXLEVEL && 3 < p < |nodes| && p !in lists[i] && Present(nodes, i, p)
      requires j <= |lists[i]| && node1 == At(lists[i], j - 1) < |nodes| && node2 == At(lists[i], j)
      requires forall k :: 0 <= k < j ==> Prio(nodes, lists[i][k]) < Prio(nodes, p)
      requires forall k :: j <= k < |lists[i]| ==> Prio(nodes, p) < Prio(nodes, lists[i][k])
      modifies this`nodes, this`lists
      ensures Levels() && lists == old(lists)[i := InsertAt(old(lists[i]), j, p)]
      ensures SameButNext(old(nodes), nodes)
    {
      ghost var before := nodes;
      LinkIn(nodes, i, lists[i], j, p);
      nodes := SetNext(nodes, p, i, node2);
      nodes := SetNext(nodes, node1, i, p);
      forall k | 0 <= k < MAXLEVEL && k != i ensures LevelOk(nodes, k, lists[k]) {
        LevelUntouched(before, nodes, k, lists[k]);
      }
      lists := lists[i := InsertAt(lists[i], j, p)];
    }

    /** A new node, not yet on any level. */
    method NewNode(value: Elem, level: nat) returns (p: Ptr)
      requires Valid() && level < MAXLEVEL
      modifies this`nodes
      ensures Growing(p, 0) && p == |old(nodes)| && old(nodes) == nodes[..p] && nodes[p].elem == value && nodes[p].level == level
      ensures forall i :: 0 <= i < level ==> Present(nodes, i, p)
      ensures Contents() == old(Contents())
    {
      ghost var before := nodes;
      p := |nodes|;
      nodes := nodes + [Node(value, false, level, seq(MAXLEVEL, _ => NULL), seq(MAXLEVEL, _ => false))];
      forall k | 0 <= k < MAXLEVEL ensures LevelOk(nodes, k, lists[k]) && p !in lists[k] {
        LevelUntouched(before, nodes, k, lists[k]);
      }
    }

    /** The search phase: down to level 1, remembering where to insert on each level the new node has. */
    method Search(key: int, curLevel: nat, ghost p: Ptr) returns (node1: Ptr, saved: seq<Ptr>)
      requires Growing(p, 0)
      ensures InFront(nodes, lists[0], node1, key) && |saved| == MAXLEVEL
      ensures forall i :: 1 <= i < curLevel && i < MAXLEVEL ==> InFront(nodes, lists[i], saved[i], key)
    {
      node1 := HEAD;
      saved := seq(MAXLEVEL, _ => HEAD);
      var i := MAXLEVEL - 1;
      while i >= 1
        invariant 0 <= i < MAXLEVEL && |saved| == MAXLEVEL && InFront(nodes, lists[i], node1, key)
        invariant forall k :: i < k < curLevel && k < MAXLEVEL ==> InFront(nodes, lists[k], saved[k], key)
      {
        var node2; ghost var j;
        node1, node2, j := ScanKey(node1, i, key);
        if i < curLevel { saved := saved[i := node1]; }
        assert node1 in lists[i] ==> node1 in lists[i - 1];
        i := i - 1;
      }
    }

    /** The new node is linked in on level i, in a walk that starts at the remembered node. */
    method LinkLevel(p: Ptr, i: nat, saved: Ptr)
      requires i < MAXLEVEL && Growing(p, i) && Present(nodes, i, p) && InFront(nodes, lists[i], saved, Prio(nodes, p))
      requires i > 0 && forall q :: q in lists[0] && q != p ==> Prio(nodes, q) != Prio(nodes, p)
      modifies this`nodes, this`lists
      ensures Growing(p, i + 1) && SameButNext(old(nodes), nodes)
      ensures lists == old(lists)[i := lists[i]]
    {
      var node1, node2; ghost var j;
      node1, node2, j := ScanKey(saved, i, nodes[p].elem.prio);
      OthersDiffer(i, p);
      ghost var before := lists;
      LinkNode(p, i, node1, node2, j);
      InsertAtIs(before[i], j, p);
    }

    /** The new node is linked in on the levels above 0. */
    method LinkAbove(p: Ptr, curLevel: nat, saved: seq<Ptr>)
      requires Growing(p, 1) && 1 <= curLevel < MAXLEVEL && nodes[p].level == curLevel && |saved| == MAXLEVEL
      requires forall i :: 0 <= i < curLevel ==> Present(nodes, i, p)
      requires forall i :: 1 <= i < curLevel ==> InFront(nodes, lists[i], saved[i], Prio(nodes, p))
      requires forall q :: q in lists[0] && q != p ==> Prio(nodes, q) != Prio(nodes, p)
      modifies this`nodes, this`lists
      ensures Growing(p, curLevel) && lists[0] == old(lists[0]) && SameButNext(old(nodes), nodes)
    {
      var i := 1;
      while i < curLevel
        invariant 1 <= i <= curLevel && Growing(p, i) && SameButNext(old(nodes), nodes) && lists[0] == old(lists[0])
        invariant forall k :: i <= k < curLevel ==> lists[k] == old(lists[k])
      {
        SameFront(old(nodes), nodes, lists[i], saved[i], Prio(nodes, p));
        SameButNextKeeps(old(nodes), nodes, i, []);
        ghost var before := nodes;
        LinkLevel(p, i, saved[i]);
        SameButNextTwice(old(nodes), before, nodes);
        i := i + 1;
      }
    }

    lemma ContentsOrdered()
      requires Levels()
      ensures Increasing(Contents()) && |Contents()| == |lists[0]|
      ensures forall k :: 0 <= k < |lists[0]| ==> lists[0][k] < |nodes| && Contents()[k].prio == Prio(nodes, lists[0][k])
    {
      assert LevelOk(nodes, 0, lists[0]);
    }

    /** The new value takes the place of the old one; the new node is not needed. */
    method Replace(newNode: Ptr, node2: Ptr, value: Elem, ghost j: nat)
      requires Growing(newNode, 0) && j < |lists[0]| && node2 == lists[0][j] < |nodes| && nodes[node2].elem.prio == value.prio
      modifies this`nodes
      ensures Valid() && Contents() == old(Contents())[j := value]
    {
      ghost var before := nodes;
      ContentsOrdered();
      nodes := nodes[node2 := nodes[node2].(elem := value)];
      forall k | 0 <= k < MAXLEVEL ensures LevelOk(nodes, k, lists[k]) { LevelUntouched(before, nodes, k, lists[k]); }
      ElemsReplaced(before, nodes, lists[0], j, value);
    }

    /** What linking in the new node on level 0 leaves for the levels above. */
    lemma AboveReady(nodes0: seq<Node>, lists0: seq<seq<Ptr>>, p: Ptr, j: nat, curLevel: nat, saved: seq<Ptr>, key: int)
      requires Levels() && SameButNext(nodes0, nodes) && 1 <= curLevel < MAXLEVEL && Sized(nodes0)
      requires |lists0| == MAXLEVEL && j <= |lists0[0]| && lists == lists0[0 := InsertAt(lists0[0], j, p)]
      requires 3 < p < |nodes0| && Prio(nodes0, p) == key && forall q :: q in lists0[0] ==> Prio(nodes0, q) != key
      requires forall i, q :: 0 <= i < MAXLEVEL ==>
        (q in lists0[i] <==> q != p && q in lists0[0] && q < |nodes0| && i < nodes0[q].level)
      requires forall i :: 0 <= i < curLevel ==> Present(nodes0, i, p)
      requires |saved| == MAXLEVEL && forall i :: 1 <= i < curLevel ==> InFront(nodes0, lists0[i], saved[i], key)
      requires forall i :: 0 <= i < MAXLEVEL ==> AllClear(nodes0, i, lists0[i]) && Clear(nodes0, i, p)
      ensures Growing(p, 1)
      ensures forall i :: 0 <= i < curLevel ==> Present(nodes, i, p)
      ensures forall i :: 1 <= i < curLevel ==> InFront(nodes, lists[i], saved[i], Prio(nodes, p))
      ensures forall q :: q in lists[0] && q != p ==> Prio(nodes, q) != Prio(nodes, p)
    {
      InsertAtIs(lists0[0], j, p);
      forall i | 0 <= i < MAXLEVEL ensures AllClear(nodes, i, lists[i]) && Clear(nodes, i, p) {
        SameButNextKeeps(nodes0, nodes, i, []);
        assert AllClear(nodes0, i, lists0[i]);
      }
      forall i | 0 <= i < curLevel ensures Present(nodes, i, p) { SameButNextKeeps(nodes0, nodes, i, []); }
      forall i | 1 <= i < curLevel ensures InFront(nodes, lists[i], saved[i], Prio(nodes, p)) {
        SameFront(nodes0, nodes, lists[i], saved[i], key);
      }
    }

    lemma WhereItGoes(e: Elem, j: nat)
      requires Levels() && j <= |lists[0]|
      requires forall k :: 0 <= k < j ==> Prio(nodes, lists[0][k]) < e.prio
      requires forall k :: j <= k < |lists[0]| ==> Prio(nodes, lists[0][k]) >= e.prio
      ensures |Contents()| == |lists[0]|
      ensures j < |lists[0]| && Prio(nodes, lists[0][j]) == e.prio ==> InsertInto(Contents(), e) == Contents()[j := e]
      ensures !(j < |lists[0]| && Prio(nodes, lists[0][j]) == e.prio) ==>
        InsertInto(Contents(), e) == Contents()[..j] + [e] + Contents()[j..]
      ensures j < |lists[0]| ==> lists[0][j] < |nodes|
    {
      ContentsOrdered();
      InsertIntoIs(Contents(), e, j);
    }

    /** An element is inserted; one of equal priority is replaced where it stands. */
    method Insert(value: Elem) returns (ok: bool)
      requires Valid()
      modifies this
      ensures Valid() && ok && Contents() == InsertInto(old(Contents()), value)
      ensures randomSeed == XorLeft(XorRight(XorLeft(old(randomSeed), 13)), 5)
      ensures IsNew(old(Contents()), value) ==> HoldsAt(value, randomSeed)
    {
      var curLevel;
      curLevel, randomSeed := RandomLevel(randomSeed);
      InsertAtLevel(value, curLevel);
      return true;
    }

    method InsertAtLevel(value: Elem, curLevel: nat)
      requires Valid() && IsLevel(curLevel, randomSeed)
      modifies this`nodes, this`lists
      ensures Valid() && Contents() == InsertInto(old(Contents()), value)
      ensures IsNew(old(Contents()), value) ==> HoldsAt(value, randomSeed)
    {
      var newNode := NewNode(value, curLevel);
      var node1, saved := Search(value.prio, curLevel, newNode);
      var node2; ghost var j;
      node1, node2, j := ScanKey(node1, 0, value.prio);
      WhereItGoes(value, j);
      if node2 != TAIL && nodes[node2].elem.prio == value.prio {
        SomeEqual(value, j);
        Replace(newNode, node2, value, j);
      } else {
        InsertNew(newNode, curLevel, saved, node1, node2, j, randomSeed);
      }
    }

    /** No element of s has the priority of value. */
    ghost predicate IsNew(s: seq<Elem>, value: Elem) {
      forall e :: e in s ==> e.prio != value.prio
    }

    lemma SomeEqual(value: Elem, j: nat)
      requires Levels() && j < |lists[0]| && lists[0][j] < |nodes| && nodes[lists[0][j]].elem.prio == value.prio
      ensures !IsNew(Contents(), value)
    {
      ContentsOrdered();
      assert Contents()[j] in Contents();
    }

    /** The element is at a node that reaches as far up as this seed says. */
    ghost predicate HoldsAt(value: Elem, seed: bv32)
      reads this
    {
      |lists| > 0 && exists p :: p in lists[0] && p < |nodes| && nodes[p].elem == value && IsLevel(nodes[p].level, seed)
    }

    method InsertNew(newNode: Ptr, curLevel: nat, saved: seq<Ptr>, node1: Ptr, node2: Ptr, ghost j: nat, ghost seed: bv32)
      requires Growing(newNode, 0) && IsLevel(curLevel, seed) && nodes[newNode].level == curLevel && |saved| == MAXLEVEL
      requires forall i :: 0 <= i < curLevel ==> Present(nodes, i, newNode)
      requires forall i :: 1 <= i < curLevel ==> InFront(nodes, lists[i], saved[i], Prio(nodes, newNode))
      requires j <= |lists[0]| && node1 == At(lists[0], j - 1) < |nodes| && node2 == At(lists[0], j)
      requires forall k :: 0 <= k < j ==> Prio(nodes, lists[0][k]) < Prio(nodes, newNode)
      requires forall k :: j <= k < |lists[0]| ==> Prio(nodes, lists[0][k]) >= Prio(nodes, newNode)
      requires j < |lists[0]| ==> Prio(nodes, lists[0][j]) != Prio(nodes, newNode)
      modifies this`nodes, this`lists
      ensures Valid()
      ensures var s := old(Contents()); j <= |s| && Contents() == s[..j] + [old(nodes)[newNode].elem] + s[j..]
      ensures HoldsAt(old(nodes)[newNode].elem, seed)
    {
      ghost var nodes0, lists0 := nodes, lists;
      NobodyEqual(nodes, lists[0], j, Prio(nodes, newNode));
      LinkNode(newNode, 0, node1, node2, j);
      ghost var nodes1 := nodes;
      ElemsInserted(nodes0, nodes, lists0[0], j, newNode);
      AboveReady(nodes0, lists0, newNode, j, curLevel, saved, Prio(nodes0, newNode));
      LinkAbove(newNode, curLevel, saved);
      ElemsSame(nodes1, nodes, lists[0]);
      assert lists[0][j] == newNode && nodes[newNode].level == curLevel;
    }

    lemma OthersDiffer(i: nat, p: Ptr)
      requires i < MAXLEVEL && Growing(p, i) && forall q :: q in lists[0] && q != p ==> Prio(nodes, q) != Prio(nodes, p)
      ensures p !in lists[i] && forall k :: 0 <= k < |lists[i]| ==> Prio(nodes, lists[i][k]) != Prio(nodes, p)
    {
      forall k | 0 <= k < |lists[i]| ensures Prio(nodes, lists[i][k]) != Prio(nodes, p) {
        assert lists[i][k] in lists[i];
      }
    }

    ghost predicate Shrinking(order: seq<Ptr>, p: Ptr, n: nat)
      reads this
    {
      Levels() && Shrunk(nodes, lists, order, p, n)
    }

    /** Before the cut, the first of all nodes is the first of each of its levels. */
    lemma FirstOfLevel(order: seq<Ptr>, p: Ptr, n: nat, i: nat)
      requires Shrinking(order, p, n) && i < n && i < MAXLEVEL && i < nodes[p].level
      ensures lists[i] != [] && lists[i][0] == p && NextAt(nodes, HEAD, i) == p && NextAt(nodes, p, i) != INVALID
    {
      var list := lists[i];
      assert p in list && LevelOk(nodes, i, list);
      assert list[0] in order;
      var k :| 0 <= k < |order| && order[k] == list[0];
      var m :| 0 <= m < |list| && list[m] == p;
      assert NextAt(nodes, At(list, -1), i) == At(list, 0);
      assert NextAt(nodes, At(list, 0), i) == At(list, 1);
    }

    /** The node's value and its links are marked; no level changes. */
    method MarkNode(p: Ptr)
      requires Valid() && 3 < p < |nodes| && lists[0] != [] && lists[0][0] == p
      modifies this`nodes
      ensures p < |nodes| && Shrinking(lists[0], p, nodes[p].level) && nodes[p].marked && nodes[p].level == old(nodes[p].level)
      ensures forall i :: 0 <= i < nodes[p].level ==> nodes[p].nextMarked[i]
      ensures Contents() == old(Contents()) && nodes[p].elem == old(nodes[p].elem)
    {
      ghost var before := nodes;
      nodes := nodes[p := nodes[p].(marked := true)];
      var i := 0;
      while i < nodes[p].level
        invariant Sized(nodes) && |nodes| == |before| && 0 <= i <= nodes[p].level
        invariant nodes == before[p := before[p].(marked := true, nextMarked := nodes[p].nextMarked)]
        invariant forall k :: 0 <= k < i ==> nodes[p].nextMarked[k]
      {
        nodes := SetNextMark(nodes, p, i);
        i := i + 1;
      }
      forall k | 0 <= k < MAXLEVEL ensures LevelOk(nodes, k, lists[k]) { LevelUntouched(before, nodes, k, lists[k]); }
      MarkedShrinks(before, nodes, lists, p);
      SameElems(before, nodes, lists[0]);
    }

    /** The first node of level i is unlinked. */
    method Unlink(prev: Ptr, p: Ptr, i: nat)
      requires Levels() && i < MAXLEVEL && prev == HEAD && 3 < p < |nodes| && lists[i] != [] && lists[i][0] == p
      modifies this`nodes, this`lists
      ensures Levels() && SameButNext(old(nodes), nodes) && lists == old(lists)[i := old(lists)[i][1..]]
    {
      ghost var before := nodes;
      assert LevelOk(nodes, i, lists[i]);
      CutFirst(nodes, i, lists[i]);
      nodes := SetNext(nodes, prev, i, nodes[p].next[i]);
      nodes := SetNext(nodes, p, i, INVALID);
      forall k | 0 <= k < MAXLEVEL && k != i ensures LevelOk(nodes, k, lists[k]) {
        LevelUntouched(before, nodes, k, lists[k]);
      }
      lists := lists[i := lists[i][1..]];
    }

    /** The node is found on level i, behind the head, and cut out. */
    method CutLevel(p: Ptr, i: nat, prev: Ptr, ghost order: seq<Ptr>) returns (prev': Ptr)
      requires i < MAXLEVEL && Shrinking(order, p, i + 1) && i < nodes[p].level && prev == HEAD
      modifies this`nodes, this`lists
      ensures Shrinking(order, p, i) && SameButNext(old(nodes), nodes) && prev' == HEAD
    {
      FirstOfLevel(order, p, i + 1, i);
      OnlyFirstMarked(order, p, i);
      assert LevelOk(nodes, i, lists[i]);
      var last; ghost var j;
      prev', last, j := ScanKey(prev, i, nodes[p].elem.prio);
      assert j == 0 && prev' == HEAD && last == p && nodes[p].next[i] != INVALID; // so the CAS succeeds
      ghost var before, lists0 := nodes, lists;
      Unlink(prev', p, i);
      CutShrinks(before, nodes, lists0, order, p, i);
    }

    /** The node is cut out of all its levels, from the top. */
    method CutAll(p: Ptr, ghost order: seq<Ptr>)
      requires 3 < p < |nodes| && Shrinking(order, p, nodes[p].level)
      modifies this`nodes, this`lists
      ensures Valid() && Contents() == ElemsOf(old(nodes), order)[1..]
    {
      var prev := HEAD;
      var i: nat := nodes[p].level;
      while i > 0
        invariant Shrinking(order, p, i) && i <= nodes[p].level
        invariant SameButNext(old(nodes), nodes) && prev == HEAD
      {
        ghost var before := nodes;
        i := i - 1;
        prev := CutLevel(p, i, prev, order);
        SameButNextTwice(old(nodes), before, nodes);
      }
      ShrunkIsValid(old(nodes), order, p);
    }

    lemma FirstNode()
      requires Valid()
      ensures nodes[HEAD].next[0] == At(lists[0], 0)
      ensures lists[0] != [] ==> 3 < lists[0][0] < |nodes| && Clear(nodes, 0, lists[0][0]) && Contents()[0] == nodes[lists[0][0]].elem
    {
      assert NextAt(nodes, At(lists[0], -1), 0) == At(lists[0], 0);
      assert lists[0] != [] ==> lists[0][0] in lists[0];
    }

    lemma OnlyFirstMarked(order: seq<Ptr>, p: Ptr, i: nat)
      requires i < MAXLEVEL && Shrinking(order, p, i + 1)
      ensures ClearBelow(nodes, i, lists[i], Prio(nodes, p))
    {
    }

    /** The element of least priority is removed and answered, or the queue is empty. */
    method DeleteMin() returns (ok: bool, result: Elem)
      requires Valid()
      modifies this
      ensures Valid() && ok == (old(Contents()) != [])
      ensures ok ==> result == old(Contents())[0] && Contents() == old(Contents())[1..]
      ensures !ok ==> Contents() == old(Contents())
    {
      FirstNode();
      var prev := HEAD;
      var node1 := nodes[prev].next[0];
      result := Elem(0, 0);
      if node1 == TAIL { return false, result; }
      result := nodes[node1].elem;
      assert !nodes[node1].marked;
      ghost var order := lists[0];
      MarkNode(node1);
      CutAll(node1, order);
      ok := true;
    }

    lemma ShrunkIsValid(before: seq<Node>, order: seq<Ptr>, p: Ptr)
      requires Shrinking(order, p, 0) && SameButNext(before, nodes)
      ensures Valid() && Contents() == ElemsOf(before, order)[1..]
    {
      forall i | 0 <= i < MAXLEVEL ensures AllClear(nodes, i, lists[i]) {}
      ElemsSame(before, nodes, lists[0]);
      assert ElemsOf(before, order)[1..] == ElemsOf(before, order[1..]);
    }
  }

  /** While node p, the first of order, is being cut out: it is on the levels below n only. */
  ghost predicate Shrunk(nodes: seq<Node>, lists: seq<seq<Ptr>>, order: seq<Ptr>, p: Ptr, n: nat)
    requires Sized(nodes)
  {
    && |lists| == MAXLEVEL && 3 < p < |nodes| && order != [] && order[0] == p && Ordered(nodes, order)
    && lists[0] == (if n == 0 then order[1..] else order)
    && (forall i :: 0 <= i < MAXLEVEL ==> Clear(nodes, i, HEAD))
    && (forall i, q :: 0 <= i < MAXLEVEL && q in order && q != p ==> Clear(nodes, i, q) || (q < |nodes| && i >= nodes[q].level))
    && HasThose(nodes, lists, order, p, n)
  }

  /** Each level has the nodes that reach up to it, but p only below level n. */
  ghost predicate HasThose(nodes: seq<Node>, lists: seq<seq<Ptr>>, order: seq<Ptr>, p: Ptr, n: nat)
    requires |lists| == MAXLEVEL
  {
    forall i, q :: 0 <= i < MAXLEVEL ==>
      (q in lists[i] <==> q in order && q < |nodes| && i < nodes[q].level && (q == p ==> i < n))
  }

  lemma MarkedShrinks(nodes: seq<Node>, r: seq<Node>, lists: seq<seq<Ptr>>, p: Ptr)
    requires Sized(nodes) && Sized(r) && |lists| == MAXLEVEL && lists[0] != [] && lists[0][0] == p && 3 < p < |nodes|
    requires Ordered(nodes, lists[0]) && forall i :: 0 <= i < MAXLEVEL ==> AllClear(nodes, i, lists[i])
    requires forall q :: q in lists[0] ==> q < |nodes|
    requires forall i, p :: 0 <= i < MAXLEVEL ==> (p in lists[i] <==> p in lists[0] && i < nodes[p].level)
    requires |r| == |nodes| && r == nodes[p := nodes[p].(marked := true, nextMarked := r[p].nextMarked)]
    ensures Shrunk(r, lists, lists[0], p, r[p].level)
  {
    forall i | 0 <= i < MAXLEVEL ensures Clear(r, i, HEAD) { assert AllClear(nodes, i, lists[i]); }
    forall i, q | 0 <= i < MAXLEVEL && q in lists[0] && q != p && i < r[q].level ensures Clear(r, i, q) {
      assert q in lists[i] && AllClear(nodes, i, lists[i]);
    }
    forall q ensures Prio(r, q) == Prio(nodes, q) {}
  }

  lemma CutShrinks(nodes: seq<Node>, r: seq<Node>, lists: seq<seq<Ptr>>, order: seq<Ptr>, p: Ptr, i: nat)
    requires Sized(nodes) && Sized(r) && SameButNext(nodes, r) && i < MAXLEVEL && Shrunk(nodes, lists, order, p, i + 1)
    requires Ordered(nodes, lists[i]) && lists[i] != [] && lists[i][0] == p && i < nodes[p].level
    ensures Shrunk(r, lists[i := lists[i][1..]], order, p, i)
  {
    var lists' := lists[i := lists[i][1..]];
    CutMembers(nodes, lists[i]);
    SameButNextKeeps(nodes, r, i, order);
    forall k: nat, q: Ptr | k < MAXLEVEL && q in order && q != p ensures Clear(r, k, q) || (q < |r| && k >= r[q].level) {
      SameButNextKeeps(nodes, r, k, []);
      assert Clear(nodes, k, q) || (q < |nodes| && k >= nodes[q].level);
    }
    forall k: nat | k < MAXLEVEL ensures Clear(r, k, HEAD) { SameButNextKeeps(nodes, r, k, []); }
    CutHasThose(nodes, r, lists, lists', order, p, i);
    assert lists'[0] == if i == 0 then order[1..] else order;
    assert |lists'| == MAXLEVEL && 3 < p < |r| && order != [] && order[0] == p && Ordered(r, order);
    assert (forall i :: 0 <= i < MAXLEVEL ==> Clear(r, i, HEAD));
    assert forall i, q :: 0 <= i < MAXLEVEL && q in order && q != p ==> Clear(r, i, q) || (q < |r| && i >= r[q].level);
  }

  lemma CutHasThose(nodes: seq<Node>, r: seq<Node>, lists: seq<seq<Ptr>>, lists': seq<seq<Ptr>>, order: seq<Ptr>, p: Ptr, i: nat)
    requires Sized(nodes) && Sized(r) && SameButNext(nodes, r) && i < MAXLEVEL == |lists| == |lists'|
    requires HasThose(nodes, lists, order, p, i + 1) && Ordered(nodes, lists[i]) && lists[i] != [] && lists[i][0] == p
    requires lists' == lists[i := lists[i][1..]]
    ensures HasThose(r, lists', order, p, i)
  {
    CutMembers(nodes, lists[i]);
    forall k, q: Ptr | 0 <= k < MAXLEVEL
      ensures q in lists'[k] <==> q in order && q < |r| && k < r[q].level && (q == p ==> k < i)
    {
      assert q in lists[k] <==> q in order && q < |nodes| && k < nodes[q].level && (q == p ==> k < i + 1);
      assert q in lists'[k] <==> q in lists[k] && (k == i ==> q != p);
      assert q < |nodes| ==> r[q].level == nodes[q].level;
    }
  }

  lemma CutMembers(nodes: seq<Node>, list: seq<Ptr>)
    requires Ordered(nodes, list) && list != []
    ensures forall q :: q in list[1..] <==> q in list && q != list[0]
  {
    assert list == [list[0]] + list[1..];
  }

  lemma SameElems(nodes: seq<Node>, r: seq<Node>, list: seq<Ptr>)
    requires |r| == |nodes| && forall q :: 0 <= q < |nodes| ==> r[q].elem == nodes[q].elem
    ensures ElemsOf(r, list) == ElemsOf(nodes, list)
  {
  }

  /** Between place j - 1 and place j there is no room for an equal. */
  lemma NobodyEqual(nodes: seq<Node>, list: seq<Ptr>, j: nat, key: int)
    requires Ordered(nodes, list) && j <= |list|
    requires forall k :: 0 <= k < j ==> Prio(nodes, list[k]) < key
    requires forall k :: j <= k < |list| ==> Prio(nodes, list[k]) >= key
    requires j < |list| ==> Prio(nodes, list[j]) != key
    ensures forall q :: q in list ==> Prio(nodes, q) != key
    ensures forall k :: j <= k < |list| ==> Prio(nodes, list[k]) > key
  {
    forall k | j <= k < |list| ensures Prio(nodes, list[k]) > key {
      if k > j { assert Prio(nodes, list[j]) < Prio(nodes, list[k]); }
    }
  }

  lemma ElemsSame(nodes: seq<Node>, r: seq<Node>, list: seq<Ptr>)
    requires SameButNext(nodes, r)
    ensures ElemsOf(r, list) == ElemsOf(nodes, list)
  {
  }

  lemma ElemsInserted(nodes: seq<Node>, r: seq<Node>, list: seq<Ptr>, j: nat, p: Ptr)
    requires SameButNext(nodes, r) && j <= |list| && p < |nodes|
    ensures var s := ElemsOf(nodes, list); ElemsOf(r, InsertAt(list, j, p)) == s[..j] + [nodes[p].elem] + s[j..]
  {
    InsertAtIs(list, j, p);
  }

  lemma ElemsReplaced(nodes: seq<Node>, r: seq<Node>, list: seq<Ptr>, j: nat, e: Elem)
    requires j < |list| && list[j] < |nodes| && r == nodes[list[j] := nodes[list[j]].(elem := e)] && Ordered(nodes, list)
    ensures ElemsOf(r, list) == ElemsOf(nodes, list)[j := e]
  {
    forall k | 0 <= k < |list| && k != j ensures list[k] != list[j] {
      assert Prio(nodes, list[k]) != Prio(nodes, list[j]);
    }
  }

  lemma SameButNextTwice(a: seq<Node>, b: seq<Node>, c: seq<Node>)
    requires SameButNext(a, b) && SameButNext(b, c)
    ensures SameButNext(a, c)
  {
  }

  lemma SameFront(nodes: seq<Node>, r: seq<Node>, list: seq<Ptr>, p: Ptr, key: int)
    requires SameButNext(nodes, r) && InFront(nodes, list, p, key)
    ensures InFront(r, list, p, key)
  {
  }

  function ElemsOf(nodes: seq<Node>, list: seq<Ptr>): seq<Elem> {
    seq(|list|, j requires 0 <= j < |list| => if list[j] < |nodes| then nodes[list[j]].elem else Elem(0, 0))
  }
}
