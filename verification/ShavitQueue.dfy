/**
 The optimistic queue of queue_shavit.h, for calls that do not overlap.

 Nodes are linked both ways: next leads from the newest node to the oldest and is always right; prev leads
 the other way and may be missing, in which case fixList restores it along next.  The queue has one dummy
 node; when the last element is to be removed the dummy is appended behind it, and a dequeue that finds the
 dummy at the head skips it.
 */
module ShavitQueue {
  import opened Sequences

  class QueueItem {
    var data: int
    var next: QueueItem?
    var prev: QueueItem?

    constructor (val: int)
      ensures data == val && next == null && prev == null
    {
      data, next, prev := val, null, null;
    }
  }

  /** Following next from the last of these nodes leads to the first; prev may be anything. */
  ghost predicate NextChain(items: seq<QueueItem>)
    reads items
  {
    items != [] && Distinct(items) && forall i :: 0 < i < |items| ==> items[i].next == items[i - 1]
  }

  ghost predicate PrevRight(items: seq<QueueItem>)
    reads items
  {
    forall i :: 0 <= i < |items| - 1 ==> items[i].prev == items[i + 1]
  }

  /** The nodes that hold elements. */
  ghost function NonDummy(items: seq<QueueItem>, dummy: QueueItem): seq<QueueItem> {
    if items == [] then [] else (if items[0] == dummy then [] else [items[0]]) + NonDummy(items[1..], dummy)
  }

  lemma {:induction false} NonDummyAppend(items: seq<QueueItem>, x: QueueItem, dummy: QueueItem)
    ensures NonDummy(items + [x], dummy) == NonDummy(items, dummy) + if x == dummy then [] else [x]
  {
    if items == [] {
      assert [x][1..] == [];
    } else {
      assert (items + [x])[1..] == items[1..] + [x];
      NonDummyAppend(items[1..], x, dummy);
    }
  }

  lemma {:induction false} NonDummyMembers(items: seq<QueueItem>, dummy: QueueItem)
    ensures forall x :: x in NonDummy(items, dummy) ==> x in items && x != dummy
  {
    if items != [] { NonDummyMembers(items[1..], dummy); }
  }

  datatype Outcome = Again | Removed | WasEmpty

  class Queue {
    const dummy: QueueItem
    var head: QueueItem
    var tail: QueueItem
    /** The chain, oldest first. */
    ghost var items: seq<QueueItem>
    /** The elements, oldest first. */
    ghost var contents: seq<int>

    ghost predicate Valid()
      reads this, items, dummy
    {
      && NextChain(items) && items[0] == head && items[|items| - 1] == tail
      && (forall i :: 0 <= i < |items| - 1 ==> items[i].prev == items[i + 1] || items[i].prev == null)
      && Holds(items, dummy, contents)
    }

    /** The nodes of the chain other than the dummy hold these values. */
    static ghost predicate Holds(items: seq<QueueItem>, dummy: QueueItem, values: seq<int>)
      reads items
    {
      var nodes := NonDummy(items, dummy);
      |nodes| == |values| && forall i :: 0 <= i < |nodes| ==> nodes[i] in items && nodes[i].data == values[i]
    }

    constructor ()
      ensures Valid() && contents == [] && fresh(dummy) && fresh(items)
    {
      var d := new QueueItem(0);
      dummy, head, tail := d, d, d;
      items, contents := [d], [];
    }

    /** fixList: with head unchanged, every prev from tail up to head is set right, whatever it was before. */
    method FixList(tl: QueueItem, hd: QueueItem, ghost chain: seq<QueueItem>)
      requires NextChain(chain) && chain[0] == hd && chain[|chain| - 1] == tl && head == hd
      modifies chain
      ensures PrevRight(chain) && forall x :: x in chain ==> x.next == old(x.next) && x.data == old(x.data)
      ensures chain[|chain| - 1].prev == old(chain[|chain| - 1].prev)
    {
      var curNode := tl;
      ghost var i := |chain| - 1;
      while head == hd && curNode != hd
        invariant 0 <= i < |chain| && curNode == chain[i] && head == hd && NextChain(chain)
        invariant forall x :: x in chain ==> x.next == old(x.next) && x.data == old(x.data)
        invariant forall j :: i <= j < |chain| - 1 ==> chain[j].prev == chain[j + 1]
        invariant chain[|chain| - 1].prev == old(chain[|chain| - 1].prev)
        decreases i
      {
        var curNodeNext := curNode.next;
        assert curNodeNext == chain[i - 1];
        if curNodeNext.prev != curNode { curNodeNext.prev := curNode; }
        curNode := curNodeNext;
        i := i - 1;
      }
    }

    /** The recheck of tail and the compare-and-swap succeed at once, because no other call is under way. */
    method Enqueue(x: int)
      requires Valid()
      modifies this, items
      ensures Valid() && contents == old(contents) + [x]
      ensures |items| == |old(items)| + 1 && old(items) == items[..|items| - 1] && fresh(items[|items| - 1])
    {
      var node := new QueueItem(x);
      NonDummyAppend(items, node, dummy);
      NonDummyMembers(items, dummy);
      var t := tail;
      node.next := t;
      tail := node;
      t.prev := node;
      items, contents := items + [node], contents + [x];
    }

    /** The branch for the last element: the dummy comes back behind it. */
    method AppendDummy()
      requires Valid() && |items| == 1 && head != dummy
      modifies this, items, dummy
      ensures Valid() && items == old(items) + [dummy] && contents == old(contents) && PrevRight(items) && head == old(head)
    {
      NonDummyAppend(items, dummy, dummy);
      var tl := tail;
      dummy.next := tl;
      dummy.prev := null;
      tail := dummy;
      head.prev := dummy;
      items := items + [dummy];
    }

    /** head moves on to the next node. */
    method AdvanceHead(to: QueueItem)
      requires Valid() && |items| > 1 && items[1] == to
      modifies this
      ensures Valid() && items == old(items)[1..]
      ensures contents == if old(head) == dummy then old(contents) else old(contents)[1..]
      ensures old(head) != dummy ==> old(contents) != [] && old(contents)[0] == old(head).data
    {
      NonDummyMembers(items[1..], dummy);
      if head != dummy { contents := contents[1..]; }
      head := to;
      items := items[1..];
    }

    /** How many more rounds a dequeue needs at most. */
    ghost function RoundsLeft(): nat
      reads this, items, dummy
      requires Valid()
    {
      if head == dummy then if |items| == 1 then 1 else if items[0].prev == null then 4 else 3
      else if |items| == 1 || items[0].prev == null then 2
      else 1
    }

    /** A round of dequeue's loop that finds an element at the head. */
    method RoundAtElement() returns (outcome: Outcome, val: int)
      requires Valid() && head != dummy
      modifies this, items, dummy
      ensures Valid() && forall i :: 0 <= i < |items| ==> items[i] in old(items) || items[i] == dummy
      ensures outcome == Removed ==> old(contents) != [] && val == old(contents)[0] && contents == old(contents)[1..]
      ensures outcome == Again ==> contents == old(contents) && RoundsLeft() < old(RoundsLeft())
      ensures outcome != WasEmpty
    {
      var hd, tl := head, tail;
      var fstNodePrev := hd.prev;
      val := hd.data;
      if tail != head {
        if fstNodePrev == null {
          Repair(tl, hd);
          return Again, val;
        }
        AdvanceHead(fstNodePrev);
        return Removed, val;
      } else {
        SingleNode();
        AppendDummy();
        return Again, val;
      }
    }

    /** A round that finds the dummy there. */
    method RoundAtDummy() returns (outcome: Outcome)
      requires Valid() && head == dummy
      modifies this, items
      ensures Valid() && forall i :: 0 <= i < |items| ==> items[i] in old(items)
      ensures contents == old(contents)
      ensures outcome == WasEmpty ==> contents == []
      ensures outcome == Again ==> RoundsLeft() < old(RoundsLeft())
      ensures outcome != Removed
    {
      var hd, tl := head, tail;
      var fstNodePrev := hd.prev;
      if tl == hd {
        SingleNode();
        return WasEmpty;
      }
      if fstNodePrev == null {
        Repair(tl, hd);
        return Again;
      }
      AdvanceHead(fstNodePrev);
      return Again;
    }

    /** The oldest element is removed; the answer is false exactly when there is none.  At most four rounds. */
    method Dequeue() returns (ok: bool, val: int, rounds: nat)
      requires Valid()
      modifies this, items, dummy
      ensures Valid() && ok == (old(contents) != [])
      ensures ok ==> val == old(contents)[0] && contents == old(contents)[1..]
      ensures !ok ==> contents == []
      ensures rounds <= 4
    {
      rounds, val := 0, 0;
      while true
        invariant Valid() && contents == old(contents) && rounds + RoundsLeft() <= 4
        invariant forall i :: 0 <= i < |items| ==> items[i] in old(items) || items[i] == dummy
        decreases RoundsLeft()
      {
        var outcome;
        if head != dummy { outcome, val := RoundAtElement(); } else { outcome := RoundAtDummy(); }
        rounds := rounds + 1;
        if outcome != Again { return outcome == Removed, val, rounds; }
      }
    }

    /** fixList on the queue's own chain. */
    method Repair(tl: QueueItem, hd: QueueItem)
      requires Valid() && tl == tail && hd == head && |items| > 1
      modifies items
      ensures Valid() && PrevRight(items) && items[0].prev == items[1]
    {
      FixList(tl, hd, items);
    }

    /** head and tail coincide only if there is one node. */
    lemma SingleNode()
      requires Valid() && head == tail
      ensures |items| == 1
      ensures NonDummy(items, dummy) == if head == dummy then [] else [head]
    {
      assert items[1..] == [];
    }
  }
}
