/**
 The local part of SMR::scan (smr.h): the hazard pointers of all records are collected into plist, plist is
 sorted and freed of duplicates, and each retired node is looked up in it.  The records do not change
 meanwhile here; what happens when they do is the subject of module SmrResults, which treats the collecting
 of each slot as a step of its own and shows that plist is long enough.
 */
module HazardScan {
  import opened Sequences
  import opened RangeSort

  const NULL := 0
  const MAX_FREE_NODES := 32

  class HPRec {
    var hp: array<int>
    var next: HPRec?
    var nrThreads: nat
    var rlist: seq<int>
    var rcount: nat
    var free: seq<int>

    constructor (k: nat)
      ensures fresh(hp) && hp.Length == k && next == null && rlist == [] && rcount == 0 && free == [] && nrThreads == 0
      ensures forall j :: 0 <= j < k ==> hp[j] == NULL
    {
      hp := new int[k](_ => NULL);
      next, nrThreads, rlist, rcount, free := null, 0, [], 0, [];
    }

    /** A released node goes to the free list, or back to the heap when that is full. */
    method FreeData(p: int) returns (deleted: bool)
      modifies this`free
      ensures deleted == (|old(free)| >= MAX_FREE_NODES)
      ensures free == if deleted then old(free) else old(free) + [p]
    {
      deleted := |free| >= MAX_FREE_NODES;
      if !deleted { free := free + [p]; }
    }
  }

  // ---------------------------------------------------------------- specification

  /** records is the list that head starts, each with k slots. */
  ghost predicate Chained(head: HPRec, records: seq<HPRec>, k: nat)
    reads records
  {
    && records != [] && head == records[0]
    && (forall i :: 0 <= i < |records| ==> records[i].hp.Length == k)
    && (forall i :: 0 <= i < |records| ==> records[i].next == RecordAt(records, i + 1))
  }

  function RecordAt(records: seq<HPRec>, i: nat): HPRec? {
    if i < |records| then records[i] else null
  }

  /** The contents of all slots, record by record. */
  ghost function Slots(records: seq<HPRec>): seq<seq<int>>
    reads records, set r | r in records :: r.hp
  {
    seq(|records|, i requires 0 <= i < |records| reads records, set r | r in records :: r.hp => records[i].hp[..])
  }

  function NonNull(s: seq<int>): seq<int> {
    if s == [] then [] else NonNull(s[..|s| - 1]) + if s[|s| - 1] == NULL then [] else [s[|s| - 1]]
  }

  /** The hazard pointers in these slots, in order. */
  function Hazards(slots: seq<seq<int>>): seq<int> {
    if slots == [] then [] else Hazards(slots[..|slots| - 1]) + NonNull(slots[|slots| - 1])
  }

  /** Some slot of some record holds x. */
  predicate InSlot(records: seq<HPRec>, x: int)
    reads records, set r | r in records :: r.hp
  {
    exists i, j :: 0 <= i < |records| && 0 <= j < records[i].hp.Length && records[i].hp[j] == x
  }

  lemma {:induction false} NonNullMembers(s: seq<int>)
    ensures forall x :: x in NonNull(s) <==> x in s && x != NULL
  {
    if s != [] {
      NonNullMembers(s[..|s| - 1]);
      LastOrBefore(s);
    }
  }

  lemma {:induction false} HazardMembers(slots: seq<seq<int>>, x: int)
    ensures x in Hazards(slots) <==> x != NULL && exists i :: 0 <= i < |slots| && x in slots[i]
  {
    if slots != [] {
      HazardMembers(slots[..|slots| - 1], x);
      NonNullMembers(slots[|slots| - 1]);
    }
  }

  /** The hazard pointers collected are what stands in the slots, but for null. */
  lemma HazardsAreSlots(records: seq<HPRec>)
    ensures forall x :: x in Hazards(Slots(records)) <==> x != NULL && InSlot(records, x)
  {
    forall x ensures x in Hazards(Slots(records)) <==> x != NULL && InSlot(records, x) {
      HazardMembers(Slots(records), x);
      if i :| 0 <= i < |records| && x in Slots(records)[i] { assert x in records[i].hp[..]; }
      if InSlot(records, x) {
        var i, j :| 0 <= i < |records| && 0 <= j < records[i].hp.Length && records[i].hp[j] == x;
        assert Slots(records)[i][j] == x;
      }
    }
  }

  /** The retired nodes that are, or are not, in plist, in order. */
  function Kept(l: seq<int>, plist: seq<int>): seq<int> {
    if l == [] then [] else Kept(l[..|l| - 1], plist) + if l[|l| - 1] in plist then [l[|l| - 1]] else []
  }

  function Dropped(l: seq<int>, plist: seq<int>): seq<int> {
    if l == [] then [] else Dropped(l[..|l| - 1], plist) + if l[|l| - 1] in plist then [] else [l[|l| - 1]]
  }

  function Backwards(s: seq<int>): seq<int> {
    if s == [] then [] else [s[|s| - 1]] + Backwards(s[..|s| - 1])
  }

  /** Kept nodes are hazardous, dropped ones are not. */
  lemma {:induction false} SplitIsRight(l: seq<int>, plist: seq<int>)
    ensures forall x :: x in Kept(l, plist) <==> x in l && x in plist
    ensures forall x :: x in Dropped(l, plist) <==> x in l && x !in plist
  {
    if l != [] {
      SplitIsRight(l[..|l| - 1], plist);
      LastOrBefore(l);
    }
  }

  lemma LastOrBefore(l: seq<int>)
    requires l != []
    ensures forall x :: x in l <==> x in l[..|l| - 1] || x == l[|l| - 1]
    ensures multiset(l) == multiset(l[..|l| - 1]) + multiset{l[|l| - 1]}
  {
    assert l == l[..|l| - 1] + [l[|l| - 1]];
  }

  /** Nothing is lost or doubled. */
  lemma {:induction false} SplitIsExact(l: seq<int>, plist: seq<int>)
    ensures multiset(Kept(l, plist)) + multiset(Dropped(l, plist)) == multiset(l)
  {
    if l != [] {
      SplitIsExact(l[..|l| - 1], plist);
      LastOrBefore(l);
    }
  }

  lemma {:induction false} BackwardsKeeps(s: seq<int>)
    ensures multiset(Backwards(s)) == multiset(s) && |Backwards(s)| == |s|
  {
    if s != [] {
      BackwardsKeeps(s[..|s| - 1]);
      assert s == s[..|s| - 1] + [s[|s| - 1]];
    }
  }

  lemma BackwardsMembers(s: seq<int>)
    ensures forall x :: x in Backwards(s) <==> x in s
  {
    BackwardsKeeps(s);
    forall x ensures x in Backwards(s) <==> x in s {
      assert x in multiset(Backwards(s)) <==> x in multiset(s);
    }
  }

  lemma {:induction false} KeptDependsOnSet(l: seq<int>, p: seq<int>, q: seq<int>)
    requires forall x :: x in p <==> x in q
    ensures Kept(l, p) == Kept(l, q) && Dropped(l, p) == Dropped(l, q)
  {
    if l != [] { KeptDependsOnSet(l[..|l| - 1], p, q); }
  }

  /** If no node was retired twice, no more nodes are kept than there are distinct hazard pointers. */
  lemma {:induction false} KeptIsBounded(l: seq<int>, plist: seq<int>)
    requires Distinct(l)
    ensures |Kept(l, plist)| <= |Elements(plist)|
  {
    SplitIsRight(l, plist);
    KeptDistinct(l, plist);
    forall x | x in Kept(l, plist) ensures x in Elements(plist) {}
    DistinctFits(Kept(l, plist), Elements(plist));
  }

  lemma {:induction false} KeptDistinct(l: seq<int>, plist: seq<int>)
    requires Distinct(l)
    ensures Distinct(Kept(l, plist))
  {
    if l != [] {
      KeptDistinct(l[..|l| - 1], plist);
      SplitIsRight(l[..|l| - 1], plist);
    }
  }

  // ---------------------------------------------------------------- std::unique and std::binary_search

  /** Equal neighbours are removed from the first n elements; the first m that remain are returned. */
  method Unique(a: array<int>, n: nat) returns (m: nat)
    requires n <= a.Length && SortedIn(a[..], 0, n)
    modifies a
    ensures m <= n && (forall i, j :: 0 <= i < j < m ==> a[i] < a[j])
    ensures forall x :: x in a[..m] <==> x in old(a[..n])
  {
    m := 0;
    var i := 0;
    while i < n
      invariant m <= i <= n
      invariant forall k :: i <= k < n ==> a[k] == old(a[k])
      invariant forall j, k :: 0 <= j < k < m ==> a[j] < a[k]
      invariant forall j, k :: 0 <= j < m && i <= k < n ==> a[j] <= a[k]
      invariant forall x :: x in a[..m] <==> x in old(a[..i])
    {
      assert old(a[..i + 1]) == old(a[..i]) + [old(a[i])];
      if m == 0 || a[m - 1] != a[i] {
        ghost var before := a[..m];
        a[m] := a[i];
        assert a[..m + 1] == before + [old(a[i])];
        m := m + 1;
      }
      i := i + 1;
    }
  }

  method BinarySearch(a: array<int>, m: nat, x: int) returns (found: bool)
    requires m <= a.Length && forall i, j :: 0 <= i < j < m ==> a[i] < a[j]
    ensures found <==> x in a[..m]
  {
    var lo, hi := 0, m;
    while lo < hi
      invariant 0 <= lo <= hi <= m
      invariant forall k :: 0 <= k < lo ==> a[k] < x
      invariant forall k :: hi <= k < m ==> a[k] > x
    {
      var mid := (lo + hi) / 2;
      if a[mid] < x { lo := mid + 1; }
      else if a[mid] > x { hi := mid; }
      else {
        assert a[..m][mid] == x;
        return true;
      }
    }
    return false;
  }

  // ---------------------------------------------------------------- scan

  lemma {:induction false} NonNullShort(s: seq<int>)
    ensures |NonNull(s)| <= |s|
  {
    if s != [] { NonNullShort(s[..|s| - 1]); }
  }

  /** Stage 1, one record: its non-null slots go to plist from place pc on. */
  method CollectRecord(rec: HPRec, plist: array<int>, pc0: nat) returns (pc: nat)
    requires rec.hp != plist && pc0 + rec.hp.Length <= plist.Length
    modifies plist
    ensures pc0 <= pc <= pc0 + rec.hp.Length && plist[..pc] == old(plist[..pc0]) + NonNull(rec.hp[..])
    ensures forall x :: x in plist[..pc] <==> x in old(plist[..pc0]) || (x in rec.hp[..] && x != NULL)
  {
    pc := pc0;
    var j := 0;
    while j < rec.hp.Length
      invariant j <= rec.hp.Length && pc0 <= pc <= pc0 + j
      invariant plist[..pc] == old(plist[..pc0]) + NonNull(rec.hp[..j])
    {
      assert rec.hp[..j + 1][..j] == rec.hp[..j];
      var hptr := rec.hp[j];
      if hptr != NULL {
        ghost var before := plist[..pc];
        plist[pc] := hptr;
        assert plist[..pc + 1] == before + [hptr];
        pc := pc + 1;
      }
      j := j + 1;
    }
    assert rec.hp[..] == rec.hp[..rec.hp.Length];
    NonNullMembers(rec.hp[..]);
  }

  /** Places for n records of k slots. */
  function Room(n: nat, k: nat): nat {
    if n == 0 then 0 else Room(n - 1, k) + k
  }

  lemma {:induction false} RoomIs(n: nat, k: nat)
    ensures Room(n, k) == n * k
  {
    if n > 0 {
      RoomIs(n - 1, k);
      assert n * k == (n - 1) * k + k;
    }
  }

  lemma {:induction false} RoomGrows(n: nat, m: nat, k: nat)
    requires n < m
    ensures Room(n, k) + k <= Room(m, k)
  {
    if n + 1 < m { RoomGrows(n, m - 1, k); }
  }

  /** Stage 1: the walk over the record list.  Because the list is no longer than nrThreads, plist has room. */
  method Collect(head: HPRec, k: nat, plist: array<int>, ghost records: seq<HPRec>, ghost slots: seq<seq<int>>) returns (pc: nat)
    requires Chained(head, records, k) && plist.Length >= Room(|records|, k)
    requires |slots| == |records|
    requires forall i :: 0 <= i < |records| ==> records[i].hp != plist && records[i].hp[..] == slots[i]
    modifies plist
    ensures pc <= plist.Length && plist[..pc] == Hazards(slots)
    ensures forall x :: x in plist[..pc] <==> x != NULL && exists i :: 0 <= i < |slots| && x in slots[i]
  {
    pc := 0;
    var hprec: HPRec? := head;
    ghost var n := 0;
    while hprec != null
      invariant n <= |records| && hprec == RecordAt(records, n) && Chained(head, records, k)
      invariant pc <= Room(n, k) && pc <= plist.Length
      invariant plist[..pc] == Hazards(slots[..n])
      decreases |records| - n
    {
      RoomGrows(n, |records|, k);
      assert slots[..n + 1][..n] == slots[..n];
      assert records[n].next == RecordAt(records, n + 1);
      pc := CollectRecord(hprec, plist, pc);
      n := n + 1;
      hprec := hprec.next;
    }
    assert slots[..n] == slots;
    forall x ensures x in Hazards(slots) <==> x != NULL && exists i :: 0 <= i < |slots| && x in slots[i] {
      HazardMembers(slots, x);
    }
  }

  /** The free list has grown by the first released nodes: by all of them, or until it was full. */
  predicate FreedFirst(before: seq<int>, after: seq<int>, released: seq<int>) {
    && |before| <= |after| <= |before| + |released|
    && after == before + released[..|after| - |before|]
    && (|after| == |before| + |released| || |after| >= MAX_FREE_NODES)
  }

  lemma FreedOneMore(before: seq<int>, after: seq<int>, released: seq<int>, x: int)
    requires FreedFirst(before, after, released)
    ensures |after| >= MAX_FREE_NODES ==> FreedFirst(before, after, released + [x])
    ensures |after| < MAX_FREE_NODES ==> FreedFirst(before, after + [x], released + [x])
  {
  }

  lemma BackwardsAppend(s: seq<int>, x: int)
    ensures Backwards(s + [x]) == [x] + Backwards(s)
  {
    assert (s + [x])[..|s|] == s;
  }

  lemma OneMore(l: seq<int>, i: nat, q: seq<int>)
    requires i < |l|
    ensures Kept(l[..i + 1], q) == if l[i] in q then Kept(l[..i], q) + [l[i]] else Kept(l[..i], q)
    ensures Dropped(l[..i + 1], q) == if l[i] in q then Dropped(l[..i], q) else Dropped(l[..i], q) + [l[i]]
  {
    assert l[..i + 1][..i] == l[..i];
  }

  /** Stage 3: each retired node is looked up in the sorted hazard pointers. */
  method LookUpAll(my: HPRec, plist: array<int>, newlast: nat) returns (released: seq<int>)
    requires newlast <= plist.Length && forall i, j :: 0 <= i < j < newlast ==> plist[i] < plist[j]
    modifies my`rlist, my`rcount, my`free
    ensures var l, q := old(my.rlist), plist[..newlast];
      my.rlist == Backwards(Kept(l, q)) && my.rcount == |Kept(l, q)| && released == Dropped(l, q)
    ensures FreedFirst(old(my.free), my.free, released)
  {
    ghost var q := plist[..newlast];
    var l := my.rlist;
    var tmpList: seq<int> := [];
    var nrcount, i := 0, 0;
    released := [];
    while i < |l|
      invariant i <= |l| && plist[..newlast] == q
      invariant tmpList == Backwards(Kept(l[..i], q)) && nrcount == |Kept(l[..i], q)|
      invariant released == Dropped(l[..i], q) && FreedFirst(old(my.free), my.free, released)
    {
      OneMore(l, i, q);
      BackwardsAppend(Kept(l[..i], q), l[i]);
      FreedOneMore(old(my.free), my.free, released, l[i]);
      var found := BinarySearch(plist, newlast, l[i]);
      if found {
        tmpList := [l[i]] + tmpList;
        nrcount := nrcount + 1;
      } else {
        var deleted := my.FreeData(l[i]);
        released := released + [l[i]];
      }
      i := i + 1;
    }
    assert l[..i] == l;
    my.rlist := tmpList;
    my.rcount := nrcount;
  }

  /** Stage 2: plist is sorted and made unique. */
  method Distil(plist: array<int>, pc: nat) returns (newlast: nat)
    requires pc <= plist.Length
    modifies plist
    ensures newlast <= plist.Length && forall i, j :: 0 <= i < j < newlast ==> plist[i] < plist[j]
    ensures forall x :: x in plist[..newlast] <==> x in old(plist[..pc])
  {
    ghost var s := plist[..];
    Sort(plist, 0, pc);
    SameElements(s, plist[..], pc);
    newlast := Unique(plist, pc);
  }

  lemma SameElements(s: seq<int>, s': seq<int>, n: nat)
    requires n <= |s| == |s'| && multiset(s) == multiset(s')
    requires forall k :: n <= k < |s| ==> s'[k] == s[k]
    ensures forall x :: x in s[..n] <==> x in s'[..n]
  {
    var p, q, r := s[..n], s'[..n], s[n..];
    assert s == p + r && s' == q + r;
    forall x ensures x in p <==> x in q { SameCount(p, q, r, x); }
  }

  lemma SameCount(p: seq<int>, q: seq<int>, r: seq<int>, x: int)
    requires multiset(p + r) == multiset(q + r)
    ensures x in p <==> x in q
  {
    assert multiset(p + r)[x] == multiset(p)[x] + multiset(r)[x];
    assert multiset(q + r)[x] == multiset(q)[x] + multiset(r)[x];
    assert (x in p <==> multiset(p)[x] > 0) && (x in q <==> multiset(q)[x] > 0);
  }

  /** The whole of scan: exactly the retired nodes that are in no slot are released, and every other one is kept, and none is
      lost or doubled; if no node was retired twice, rcount is at most the number of distinct hazard pointers. */
  method Scan(head: HPRec, my: HPRec, k: nat, ghost records: seq<HPRec>) returns (released: seq<int>)
    requires Chained(head, records, k) && |records| <= head.nrThreads
    modifies my`rlist, my`rcount, my`free
    ensures forall x :: x in released <==> x in old(my.rlist) && !(x != NULL && old(InSlot(records, x)))
    ensures forall x :: x in my.rlist <==> x in old(my.rlist) && x != NULL && old(InSlot(records, x))
    ensures multiset(released) + multiset(my.rlist) == multiset(old(my.rlist))
    ensures released == Dropped(old(my.rlist), old(Hazards(Slots(records))))
    ensures my.rlist == Backwards(Kept(old(my.rlist), old(Hazards(Slots(records)))))
    ensures my.rcount == |my.rlist|
    ensures Distinct(old(my.rlist)) ==> my.rcount <= |Elements(old(Hazards(Slots(records))))|
    ensures FreedFirst(old(my.free), my.free, released)
  {
    ghost var slots := Slots(records);
    HazardsAreSlots(records);
    var maxThreads := head.nrThreads;
    var plist := new int[maxThreads * k](_ => NULL);
    PlistFits(|records|, maxThreads, k);
    RoomIs(|records|, k);
    var pc := Collect(head, k, plist, records, slots);
    ghost var p := plist[..pc];
    var newlast := Distil(plist, pc);
    KeptDependsOnSet(my.rlist, p, plist[..newlast]);
    Outcome(my.rlist, p);
    released := LookUpAll(my, plist, newlast);
  }

  lemma Outcome(l: seq<int>, p: seq<int>)
    ensures var d, k := Dropped(l, p), Backwards(Kept(l, p));
      && (forall x :: x in d <==> x in l && x !in p)
      && (forall x :: x in k <==> x in l && x in p)
      && multiset(d) + multiset(k) == multiset(l)
      && |k| == |Kept(l, p)| && (Distinct(l) ==> |k| <= |Elements(p)|)
  {
    SplitIsRight(l, p);
    SplitIsExact(l, p);
    BackwardsKeeps(Kept(l, p));
    BackwardsMembers(Kept(l, p));
    if Distinct(l) { KeptIsBounded(l, p); }
  }

  lemma PlistFits(n: nat, m: nat, k: nat)
    requires n <= m
    ensures n * k <= m * k
  {
  }
}
