/**
 The list stays sorted, and every call takes effect or sees its answer at one of its own steps.
 */
module ListProof {
  import opened ListCore

  // ---------------------------------------------------------------- invariants

  predicate Published(m: Mem, p: Ptr) {
    p < |m.status| && (m.status[p].Listed? || m.status[p].Gone?)
  }

  function NodeAt(chain: seq<Ptr>, i: nat): Ptr {
    if i < |chain| then chain[i] else NULL
  }

  predicate Sized(m: Mem) {
    |m.keys| == |m.next| == |m.status| > 0 && m.status[NULL].Nil?
  }

  ghost predicate Linked(m: Mem) {
    && Sized(m) && m.head == Link(NodeAt(m.chain, 0), false)
    && (forall i :: 0 <= i < |m.chain| ==> m.chain[i] < |m.status| && m.status[m.chain[i]].Listed?)
    && (forall i {:trigger m.next[m.chain[i]]} :: 0 <= i < |m.chain| ==> m.next[m.chain[i]].p == NodeAt(m.chain, i + 1))
  }

  ghost predicate Sorted(keys: seq<Key>, chain: seq<Ptr>) {
    && (forall i :: 0 <= i < |chain| ==> chain[i] < |keys|)
    && (forall i, j :: 0 <= i < j < |chain| ==> Less(keys[chain[i]], keys[chain[j]]))
  }

  /** chain is the list that head starts, strictly sorted. */
  ghost predicate ChainInv(m: Mem) {
    Linked(m) && Sorted(m.keys, m.chain)
  }

  /** A node that has left the chain is marked, and links lead to larger keys, even from there. */
  ghost predicate Places(m: Mem) {
    && Sized(m)
    && (forall p :: 0 <= p < |m.status| && m.status[p].Listed? ==> p in m.chain)
    && (forall p :: 0 <= p < |m.status| && m.status[p].Gone? ==> m.next[p].marked)
  }

  ghost predicate Forward(m: Mem) {
    Sized(m) && forall p :: 0 <= p < |m.status| && (m.status[p].Listed? || m.status[p].Gone?) ==> LeadsOn(m, p)
  }

  ghost predicate NodesInv(m: Mem) {
    Places(m) && Forward(m)
  }

  predicate LeadsOn(m: Mem, p: Ptr) {
    var q := Next(m, p).p;
    q == NULL || (Published(m, q) && Less(KeyOf(m, p), KeyOf(m, q)))
  }

  ghost predicate MemInv(m: Mem) {
    ChainInv(m) && NodesInv(m)
  }

  /** The keys of the nodes that are in the chain and unmarked. */
  ghost function KeySet(m: Mem): set<Key> {
    set p | p in m.chain && !Next(m, p).marked :: KeyOf(m, p)
  }

  /** A call that starts at a copied bucket cell starts at a smaller node that is not deleted. */
  predicate Pinned(m: Mem, l: Local) {
    match l.from
    case Head => true
    case Copy =>
      && !l.copy.marked && Published(m, l.copy.p) && Less(KeyOf(m, l.copy.p), l.key) && !Next(m, l.copy.p).marked
    case Field(_) => false
  }

  predicate Adding(l: Local) {
    (l.kind.Add? || l.kind.AddAddr?) && !l.took
  }

  /** prev refers to a smaller published node, to head, or still to the copied cell. */
  predicate Behind(m: Mem, l: Local) {
    match l.prev
    case Head => true
    case Copy => l.from.Copy? && l.cur == l.copy.p
    case Field(p) => Published(m, p) && Less(KeyOf(m, p), l.key)
  }

  /** What holds at every instruction of a call. */
  predicate Common(m: Mem, l: Local, t: nat) {
    && Pinned(m, l)
    && (Adding(l) ==> l.node < |m.status| && m.status[l.node] == Private(t) && KeyOf(m, l.node) == l.key)
    && (l.took ==> l.ans && !l.kind.Search?)
    && (true in l.seen ==> l.kind.Search?)
  }

  /** At cur, an unmarked node, the answers that follow from its key and its successor have been seen. */
  predicate Sighted(m: Mem, l: Local) {
    && (KeyOf(m, l.cur) == l.key && Answers(l, true) ==> l.kind.Search? in l.seen)
    && (Less(KeyOf(m, l.cur), l.key) && l.next.p == NULL && Answers(l, false) ==> false in l.seen)
  }

  ghost predicate LInv(m: Mem, l: Local, t: nat) {
    && Common(m, l, t)
    && (l.took && !l.kind.Remove? ==> l.pc.Answer?)
    && match l.pc
       case ReadStart => true
       case RecheckStart => l.prev == l.from && (l.cur == NULL || Published(m, l.cur)) && Behind(m, l)
       case ReadNext => Behind(m, l) && Published(m, l.cur)
       case RecheckNext =>
         && Behind(m, l) && Published(m, l.cur) && (l.prev.Copy? ==> !l.next.marked)
         && (l.next.p == NULL || Published(m, l.next.p)) && (l.next.marked ==> Next(m, l.cur) == l.next)
       case RecheckPrev =>
         && Behind(m, l) && Published(m, l.cur) && (l.prev.Copy? ==> !l.next.marked)
         && (l.next.p == NULL || Published(m, l.next.p)) && (l.next.marked ==> Next(m, l.cur) == l.next)
         && (!l.next.marked ==> Sighted(m, l))
       case Unlink => Behind(m, l) && !l.prev.Copy? && Published(m, l.cur) && l.next.marked && Next(m, l.cur) == l.next
       case WriteNext =>
         Adding(l) && Behind(m, l) && !l.prev.Copy? && (l.cur == NULL || (Published(m, l.cur) && Less(l.key, KeyOf(m, l.cur))))
       case CasAdd =>
         && Adding(l) && Behind(m, l) && !l.prev.Copy? && (l.cur == NULL || (Published(m, l.cur) && Less(l.key, KeyOf(m, l.cur))))
         && Next(m, l.node) == Link(l.cur, false)
       case MarkCur =>
         && l.kind.Remove? && !l.took && Behind(m, l) && !l.prev.Copy? && Published(m, l.cur)
         && KeyOf(m, l.cur) == l.key && !l.next.marked
       case UnlinkMarked =>
         && l.kind.Remove? && l.took && Behind(m, l) && !l.prev.Copy? && Published(m, l.cur)
         && Next(m, l.cur) == Link(l.next.p, true)
       case Answer =>
         (!l.took ==> l.ans in l.seen) && (l.kind.AddAddr? ==> Published(m, l.cur) && KeyOf(m, l.cur) == l.key)
       case Crash => false
  }

  /** What a step of thread t may do: marked links are frozen, published nodes stay published. */
  ghost predicate Rely(m: Mem, m': Mem, t: nat) {
    && Sized(m) && Sized(m') && |m.keys| <= |m'.keys|
    && (forall p :: 0 <= p < |m.keys| ==> m'.keys[p] == m.keys[p])
    && (forall p :: 0 <= p < |m.status| && m.status[p].Private? && m.status[p].t != t ==>
          m'.status[p] == m.status[p] && m'.next[p] == m.next[p])
    && (forall p :: 0 <= p < |m.status| && (m.status[p].Listed? || m.status[p].Gone?) ==>
          Published(m', p) && (m.next[p].marked ==> m'.next[p] == m.next[p]))
  }

  lemma ThreadStable(m: Mem, m': Mem, t: nat, l: Local, u: nat)
    requires Rely(m, m', t) && LInv(m, l, u) && u != t && Pinned(m', l)
    ensures LInv(m', l, u)
  {
  }

  // ---------------------------------------------------------------- changes of the chain

  /** A prev that still refers to an unmarked cur is next to it in the chain. */
  lemma AtPrev(m: Mem, l: Local)
    requires MemInv(m) && Behind(m, l) && !l.prev.Copy? && Load(m, l, l.prev) == Link(l.cur, false)
    ensures var i := Slot(m.chain, l.prev);
      && i <= |m.chain| && NodeAt(m.chain, i) == l.cur
      && (if l.prev.Head? then i == 0 else i > 0 && l.prev == Field(m.chain[i - 1]))
      && forall j :: 0 <= j < i ==> Less(m.keys[m.chain[j]], l.key)
  {
    if l.prev.Field? {
      assert m.status[l.prev.p].Listed?;
      var i := IndexOf(m.chain, l.prev.p);
      assert m.next[m.chain[i]].p == NodeAt(m.chain, i + 1);
    }
  }

  /** m' is m with node p written into the cell in front of place i of the chain. */
  predicate LinkedAt(m: Mem, m': Mem, i: nat, p: Ptr) {
    && i <= |m.chain| && m'.keys == m.keys
    && (if i == 0 then m'.head == Link(p, false) && m'.next == m.next
        else m.chain[i - 1] < |m.next| && m'.head == m.head && m'.next == m.next[m.chain[i - 1] := Link(p, false)])
  }

  lemma InsertMembers(s: seq<Ptr>, i: nat, p: Ptr)
    requires i <= |s|
    ensures var s' := InsertAt(s, i, p);
      && |s'| == |s| + 1
      && (forall j {:trigger s'[j]} :: 0 <= j < |s'| ==> s'[j] == if j < i then s[j] else if j == i then p else s[j - 1])
      && (forall x :: x in s' <==> x in s || x == p)
  {
    var s' := InsertAt(s, i, p);
    assert s'[i] == p;
    forall x | x in s ensures x in s' {
      var j := IndexOf(s, x);
      assert s'[if j < i then j else j + 1] == x;
    }
  }

  lemma RemoveMembers(s: seq<Ptr>, i: nat)
    requires i < |s| && forall j, k :: 0 <= j < k < |s| ==> s[j] != s[k]
    ensures var s' := RemoveAt(s, i);
      && |s'| == |s| - 1
      && (forall j {:trigger s'[j]} :: 0 <= j < |s'| ==> s'[j] == s[if j < i then j else j + 1])
      && (forall x :: x in s' <==> x in s && x != s[i])
  {
    var s' := RemoveAt(s, i);
    forall x | x in s && x != s[i] ensures x in s' {
      var j := IndexOf(s, x);
      assert s'[if j < i then j else j - 1] == x;
    }
  }

  /** Node p goes to place i of the chain of m, giving m'. */
  ghost predicate Inserted(m: Mem, m': Mem, i: nat, p: Ptr) {
    && LinkedAt(m, m', i, p) && 0 < p < |m.status| && m.status[p].Private?
    && m'.status == m.status[p := Listed] && m'.chain == InsertAt(m.chain, i, p)
    && Next(m, p) == Link(NodeAt(m.chain, i), false) && (i > 0 ==> !Next(m, m.chain[i - 1]).marked)
    && (forall j :: 0 <= j < i ==> m.chain[j] < |m.keys| && Less(m.keys[m.chain[j]], KeyOf(m, p)))
    && (forall j :: i <= j < |m.chain| ==> m.chain[j] < |m.keys| && Less(KeyOf(m, p), m.keys[m.chain[j]]))
  }

  lemma InsertKeepsSorted(m: Mem, m': Mem, i: nat, p: Ptr)
    requires Sized(m) && Sorted(m.keys, m.chain) && Inserted(m, m', i, p)
    ensures Sorted(m'.keys, m'.chain)
  {
    InsertMembers(m.chain, i, p);
  }

  lemma InsertKeepsLinked(m: Mem, m': Mem, i: nat, p: Ptr)
    requires Linked(m) && Sorted(m.keys, m.chain) && Inserted(m, m', i, p)
    ensures Linked(m')
  {
    InsertMembers(m.chain, i, p);
    forall j | 0 <= j < |m'.chain| ensures m'.next[m'.chain[j]].p == NodeAt(m'.chain, j + 1) {
      if j < i { assert m.next[m.chain[j]].p == NodeAt(m.chain, j + 1); }
      else if j > i { assert m.next[m.chain[j - 1]].p == NodeAt(m.chain, j); }
    }
  }

  lemma InsertKeepsPlaces(m: Mem, m': Mem, i: nat, p: Ptr)
    requires Linked(m) && Places(m) && Inserted(m, m', i, p)
    ensures Places(m')
  {
    InsertMembers(m.chain, i, p);
  }

  /** Published nodes stay published, with the same keys. */
  ghost predicate StillThere(m: Mem, m': Mem) {
    Sized(m) && Sized(m') && m'.keys == m.keys && forall p :: Published(m, p) ==> Published(m', p)
  }

  lemma LeadsOnStill(m: Mem, m': Mem, q: Ptr)
    requires StillThere(m, m') && LeadsOn(m, q) && Next(m', q).p == Next(m, q).p
    ensures LeadsOn(m', q)
  {
  }

  lemma InsertKeepsForward(m: Mem, m': Mem, i: nat, p: Ptr)
    requires Linked(m) && Forward(m) && Inserted(m, m', i, p)
    ensures Forward(m')
  {
    assert StillThere(m, m');
    forall q | 0 <= q < |m'.status| && (m'.status[q].Listed? || m'.status[q].Gone?) ensures LeadsOn(m', q) {
      if q == p {}
      else if i > 0 && q == m.chain[i - 1] {}
      else {
        assert LeadsOn(m, q);
        LeadsOnStill(m, m', q);
      }
    }
  }

  /** The node at place i of the chain of m leaves it, giving m'. */
  ghost predicate Removed(m: Mem, m': Mem, i: nat) {
    && i < |m.chain| && LinkedAt(m, m', i, NodeAt(m.chain, i + 1)) && Next(m, m.chain[i]).marked
    && (i > 0 ==> !Next(m, m.chain[i - 1]).marked)
    && m.chain[i] < |m.status| && m'.status == m.status[m.chain[i] := Gone] && m'.chain == RemoveAt(m.chain, i)
  }

  lemma RemoveKeepsSorted(m: Mem, m': Mem, i: nat)
    requires Sorted(m.keys, m.chain) && Removed(m, m', i)
    ensures Sorted(m'.keys, m'.chain)
  {
    RemoveMembers(m.chain, i);
  }

  lemma RemoveKeepsLinked(m: Mem, m': Mem, i: nat)
    requires Linked(m) && Sorted(m.keys, m.chain) && Removed(m, m', i)
    ensures Linked(m')
  {
    RemoveMembers(m.chain, i);
    forall j | 0 <= j < |m'.chain| ensures m'.next[m'.chain[j]].p == NodeAt(m'.chain, j + 1) {
      if j < i { assert m.next[m.chain[j]].p == NodeAt(m.chain, j + 1); }
      else { assert m.next[m.chain[j + 1]].p == NodeAt(m.chain, j + 2); }
    }
  }

  lemma RemoveKeepsPlaces(m: Mem, m': Mem, i: nat)
    requires Linked(m) && Sorted(m.keys, m.chain) && Places(m) && Removed(m, m', i)
    ensures Places(m')
  {
    RemoveMembers(m.chain, i);
  }

  lemma RemoveKeepsForward(m: Mem, m': Mem, i: nat)
    requires Linked(m) && Sorted(m.keys, m.chain) && Forward(m) && Removed(m, m', i)
    ensures Forward(m')
  {
    assert StillThere(m, m');
    forall q | 0 <= q < |m'.status| && (m'.status[q].Listed? || m'.status[q].Gone?) ensures LeadsOn(m', q) {
      if i > 0 && q == m.chain[i - 1] {}
      else {
        assert LeadsOn(m, q);
        LeadsOnStill(m, m', q);
      }
    }
  }

  lemma KeyAt(m: Mem, p: Ptr)
    requires p in m.chain && !Next(m, p).marked
    ensures KeyOf(m, p) in KeySet(m)
  {
  }

  /** A key strictly between two neighbours of the chain is not in the set. */
  lemma NotBetween(m: Mem, i: nat, key: Key)
    requires ChainInv(m) && i <= |m.chain|
    requires i > 0 ==> Less(m.keys[m.chain[i - 1]], key)
    requires i < |m.chain| ==> Less(key, m.keys[m.chain[i]])
    ensures key !in KeySet(m)
    ensures forall j :: 0 <= j < i ==> Less(m.keys[m.chain[j]], key)
    ensures forall j :: i <= j < |m.chain| ==> Less(key, m.keys[m.chain[j]])
  {
    forall j | 0 <= j < |m.chain| ensures if j < i then Less(m.keys[m.chain[j]], key) else Less(key, m.keys[m.chain[j]]) {
      if j + 1 < i { assert Less(m.keys[m.chain[j]], m.keys[m.chain[i - 1]]); }
      if j > i { assert Less(m.keys[m.chain[i]], m.keys[m.chain[j]]); }
    }
    forall p | p in m.chain ensures KeyOf(m, p) != key {
      var j := IndexOf(m.chain, p);
      assert m.chain[j] == p;
    }
  }

  lemma InsertKeys(m: Mem, m': Mem, i: nat, p: Ptr)
    requires Linked(m) && Inserted(m, m', i, p)
    ensures KeySet(m') == KeySet(m) + {KeyOf(m, p)}
  {
    InsertMembers(m.chain, i, p);
    forall x | x in m.chain ensures Next(m', x).marked == Next(m, x).marked && KeyOf(m', x) == KeyOf(m, x) {}
    forall x | x in m'.chain && !Next(m', x).marked ensures KeyOf(m', x) in KeySet(m) + {KeyOf(m, p)} {
      if x != p { KeyAt(m, x); }
    }
    forall x | x in m.chain && !Next(m, x).marked ensures KeyOf(m, x) in KeySet(m') { KeyAt(m', x); }
    KeyAt(m', p);
  }

  lemma RemoveKeys(m: Mem, m': Mem, i: nat)
    requires ChainInv(m) && Removed(m, m', i)
    ensures KeySet(m') == KeySet(m)
  {
    RemoveMembers(m.chain, i);
    forall x | x in m.chain ensures Next(m', x).marked == Next(m, x).marked && KeyOf(m', x) == KeyOf(m, x) {}
    forall x | x in m'.chain && !Next(m', x).marked ensures KeyOf(m', x) in KeySet(m) { KeyAt(m, x); }
    forall x | x in m.chain && !Next(m, x).marked ensures KeyOf(m, x) in KeySet(m') { KeyAt(m', x); }
  }

  lemma SameKey(m: Mem, p: Ptr, q: Ptr)
    requires ChainInv(m) && p in m.chain && q in m.chain && KeyOf(m, p) == KeyOf(m, q)
    ensures p == q
  {
    var i, j := IndexOf(m.chain, p), IndexOf(m.chain, q);
  }

  /** m' is m with node p marked. */
  predicate Marked(m: Mem, m': Mem, p: Ptr) {
    p < |m.next| && !m.next[p].marked && m' == m.(next := m.next[p := Link(m.next[p].p, true)])
  }

  lemma MarkKeys(m: Mem, m': Mem, p: Ptr)
    requires ChainInv(m) && p in m.chain && Marked(m, m', p)
    ensures KeyOf(m, p) in KeySet(m) && KeySet(m') == KeySet(m) - {KeyOf(m, p)}
  {
    KeyAt(m, p);
    forall x | x in m'.chain && !Next(m', x).marked ensures KeyOf(m', x) in KeySet(m) - {KeyOf(m, p)} {
      KeyAt(m, x);
      if KeyOf(m, x) == KeyOf(m, p) { SameKey(m, x, p); }
    }
    forall x | x in m.chain && !Next(m, x).marked && KeyOf(m, x) != KeyOf(m, p) ensures KeyOf(m, x) in KeySet(m') {
      KeyAt(m', x);
    }
  }

  lemma MarkKeeps(m: Mem, m': Mem, p: Ptr)
    requires MemInv(m) && Published(m, p) && Marked(m, m', p)
    ensures MemInv(m') && p in m.chain
  {
    assert m.status[p].Listed?;
    forall j | 0 <= j < |m'.chain| ensures m'.next[m'.chain[j]].p == NodeAt(m'.chain, j + 1) {
      assert m.next[m.chain[j]].p == NodeAt(m.chain, j + 1);
    }
    forall q | 0 <= q < |m'.status| && (m'.status[q].Listed? || m'.status[q].Gone?) ensures LeadsOn(m', q) {
      assert LeadsOn(m, q);
      LeadsOnStill(m, m', q);
    }
  }

  /** Only nodes that are not published differ. */
  ghost predicate SamePublished(m: Mem, m': Mem) {
    && Sized(m) && Sized(m') && |m.keys| <= |m'.keys| && m'.head == m.head && m'.chain == m.chain
    && (forall p :: 0 <= p < |m.status| ==> m'.status[p] == m.status[p] && m'.keys[p] == m.keys[p])
    && (forall p :: 0 <= p < |m.status| && !m.status[p].Private? ==> m'.next[p] == m.next[p])
    && (forall p :: |m.status| <= p < |m'.status| ==> m'.status[p].Private?)
  }

  lemma PrivateKeepsKeys(m: Mem, m': Mem)
    requires Linked(m) && SamePublished(m, m')
    ensures KeySet(m') == KeySet(m)
  {
    forall x | x in m.chain ensures Next(m', x) == Next(m, x) && KeyOf(m', x) == KeyOf(m, x) {}
    forall x | x in m.chain && !Next(m, x).marked ensures KeyOf(m, x) in KeySet(m') { KeyAt(m', x); }
    forall x | x in m.chain && !Next(m', x).marked ensures KeyOf(m', x) in KeySet(m) { KeyAt(m, x); }
  }

  lemma PrivateKeepsForward(m: Mem, m': Mem)
    requires Forward(m) && SamePublished(m, m')
    ensures Forward(m')
  {
    forall q | 0 <= q < |m'.status| && (m'.status[q].Listed? || m'.status[q].Gone?) ensures LeadsOn(m', q) {
      assert LeadsOn(m, q);
    }
  }

  lemma PrivateKeeps(m: Mem, m': Mem)
    requires MemInv(m) && SamePublished(m, m')
    ensures MemInv(m') && KeySet(m') == KeySet(m)
  {
    PrivateKeepsKeys(m, m');
    PrivateKeepsForward(m, m');
    forall j | 0 <= j < |m'.chain| ensures m'.next[m'.chain[j]].p == NodeAt(m'.chain, j + 1) {
      assert m.next[m.chain[j]].p == NodeAt(m.chain, j + 1);
    }
  }

  // ---------------------------------------------------------------- one step

  /** A step agrees with the specification: it takes effect, or sees an answer it could give, or does
      nothing that shows in the set of keys. */
  ghost predicate Agrees(m: Mem, l: Local, m': Mem, e: Effect) {
    match e
    case Nothing => KeySet(m') == KeySet(m)
    case Takes(ans) => ListSpec(KeySet(m), l.kind, l.key) == (KeySet(m'), ans)
    case Sees(ans) => ListSpec(KeySet(m), l.kind, l.key) == (KeySet(m), ans) && KeySet(m') == KeySet(m)
  }

  ghost predicate StepKept(m: Mem, l: Local, t: nat) {
    var (m', l', e) := Step(m, l);
    MemInv(m') && Rely(m, m', t) && LInv(m', l', t) && Agrees(m, l, m', e)
  }

  /** What the step leaves in place of the call. */
  predicate SameCall(l: Local, l': Local, e: Effect) {
    && l'.kind == l.kind && l'.key == l.key && l'.from == l.from && l'.node == l.node && l'.copy == l.copy
    && l'.took == (l.took || e.Takes?) && (e.Takes? ==> !l.took && l'.ans == e.ans) && (l.took ==> l'.ans == l.ans)
    && l'.seen == (if e.Sees? then l.seen + {e.ans} else l.seen) && (e.Sees? ==> !l.took)
  }

  lemma FindStaysTheCall(m: Mem, l: Local, t: nat)
    requires LInv(m, l, t) && (l.pc.ReadStart? || l.pc.RecheckStart? || l.pc.ReadNext? || l.pc.RecheckNext?)
    ensures var (m', l', e) := Step(m, l); SameCall(l, l', e)
  {
  }

  lemma RecheckPrevStaysTheCall(m: Mem, l: Local, t: nat)
    requires LInv(m, l, t) && l.pc.RecheckPrev?
    ensures var (m', l', e) := Step(m, l); SameCall(l, l', e)
  {
  }

  lemma UnlinkStaysTheCall(m: Mem, l: Local, t: nat)
    requires LInv(m, l, t) && l.pc.Unlink?
    ensures var (m', l', e) := Step(m, l); SameCall(l, l', e)
  {
  }

  lemma ChangeStaysTheCall(m: Mem, l: Local, t: nat)
    requires LInv(m, l, t)
    requires l.pc.WriteNext? || l.pc.CasAdd? || l.pc.MarkCur? || l.pc.UnlinkMarked? || l.pc.Answer?
    ensures var (m', l', e) := Step(m, l); SameCall(l, l', e)
  {
  }

  lemma StaysTheCall(m: Mem, l: Local, t: nat)
    requires LInv(m, l, t)
    ensures var (m', l', e) := Step(m, l); SameCall(l, l', e)
  {
    if l.pc.RecheckPrev? { RecheckPrevStaysTheCall(m, l, t); }
    else if l.pc.Unlink? { UnlinkStaysTheCall(m, l, t); }
    else if l.pc.ReadStart? || l.pc.RecheckStart? || l.pc.ReadNext? || l.pc.RecheckNext? { FindStaysTheCall(m, l, t); }
    else { ChangeStaysTheCall(m, l, t); }
  }

  lemma NothingKeeps(m: Mem, t: nat)
    requires MemInv(m)
    ensures Rely(m, m, t)
  {
  }

  /** An unmarked published node is in the chain: what was read there holds of the set now. */
  lemma InChain(m: Mem, p: Ptr)
    requires MemInv(m) && Published(m, p) && !Next(m, p).marked
    ensures p in m.chain && IndexOf(m.chain, p) < |m.chain|
    ensures KeyOf(m, p) in KeySet(m)
    ensures NodeAt(m.chain, IndexOf(m.chain, p) + 1) == Next(m, p).p
  {
    assert m.status[p].Listed?;
    KeyAt(m, p);
    var i := IndexOf(m.chain, p);
    assert m.next[m.chain[i]].p == NodeAt(m.chain, i + 1);
  }

  lemma LastBelow(m: Mem, p: Ptr, key: Key)
    requires MemInv(m) && Published(m, p) && Next(m, p) == Link(NULL, false) && Less(KeyOf(m, p), key)
    ensures key !in KeySet(m)
  {
    InChain(m, p);
    NotBetween(m, IndexOf(m.chain, p) + 1, key);
  }

  /** An instruction that only reads. */
  ghost predicate ReadKept(m: Mem, l: Local, t: nat) {
    var (m', l', e) := Step(m, l);
    m' == m && LInv(m, l', t) && Agrees(m, l, m, e)
  }

  /** An answer that agrees with the set is a right one for a call that would change nothing. */
  lemma SightAgrees(m: Mem, l: Local, found: bool)
    requires found == (l.key in KeySet(m))
    ensures Agrees(m, l, m, Sight(l, found))
  {
    if found { assert KeySet(m) + {l.key} == KeySet(m); } else { assert KeySet(m) - {l.key} == KeySet(m); }
  }

  lemma ReadStartKeeps(m: Mem, l: Local, t: nat)
    requires MemInv(m) && LInv(m, l, t) && l.pc.ReadStart?
    ensures ReadKept(m, l, t)
  {
    if m.chain != [] { assert Published(m, m.chain[0]); }
  }

  lemma RecheckStartKeeps(m: Mem, l: Local, t: nat)
    requires MemInv(m) && LInv(m, l, t) && l.pc.RecheckStart?
    ensures ReadKept(m, l, t)
  {
    if l.cur == NULL && Load(m, l, l.prev) == Link(l.cur, false) {
      assert l.prev.Head? && m.chain == [];
      NotBetween(m, 0, l.key);
      SightAgrees(m, l, false);
    }
  }

  lemma ReadNextKeeps(m: Mem, l: Local, t: nat)
    requires MemInv(m) && LInv(m, l, t) && l.pc.ReadNext?
    ensures ReadKept(m, l, t)
  {
    assert LeadsOn(m, l.cur);
  }

  lemma RecheckNextAgrees(m: Mem, l: Local, t: nat)
    requires MemInv(m) && LInv(m, l, t) && l.pc.RecheckNext?
    ensures Agrees(m, l, m, Step(m, l).2)
  {
    if Next(m, l.cur) == l.next && !l.next.marked {
      InChain(m, l.cur);
      if KeyOf(m, l.cur) == l.key { SightAgrees(m, l, true); }
      else if l.next.p == NULL && Less(KeyOf(m, l.cur), l.key) {
        LastBelow(m, l.cur, l.key);
        SightAgrees(m, l, false);
      }
    }
  }

  lemma RecheckNextSights(m: Mem, l: Local)
    requires l.pc.RecheckNext? && Next(m, l.cur) == l.next && !l.next.marked
    ensures Sighted(m, Step(m, l).1)
  {
  }

  lemma RecheckNextThread(m: Mem, l: Local, t: nat)
    requires Sized(m) && LInv(m, l, t) && l.pc.RecheckNext?
    ensures Step(m, l).0 == m && LInv(m, Step(m, l).1, t)
  {
    var l' := Step(m, l).1;
    if Next(m, l.cur) == l.next {
      assert l' == l.(pc := RecheckPrev, seen := l'.seen);
      if !l.next.marked { RecheckNextSights(m, l); }
    }
  }

  lemma RecheckPrevAgrees(m: Mem, l: Local, t: nat)
    requires MemInv(m) && LInv(m, l, t) && l.pc.RecheckPrev?
    ensures Agrees(m, l, m, Step(m, l).2)
  {
    if Load(m, l, l.prev) == Link(l.cur, false) && !l.next.marked && Less(l.key, KeyOf(m, l.cur)) {
      AtPrev(m, l);
      NotBetween(m, Slot(m.chain, l.prev), l.key);
      SightAgrees(m, l, false);
    }
  }

  /** find may return once it is known where the key belongs and the answer has been seen. */
  lemma DecideKeeps(m: Mem, l: Local, found: bool, t: nat)
    requires Common(m, l, t) && Behind(m, l) && !l.prev.Copy? && (l.took ==> l.kind.Remove?)
    requires if found then Published(m, l.cur) && KeyOf(m, l.cur) == l.key && !l.next.marked
             else l.cur == NULL || (Published(m, l.cur) && Less(l.key, KeyOf(m, l.cur)))
    requires Answers(l, found) ==> (found && l.kind.Search?) in l.seen
    ensures LInv(m, Decide(l, found), t)
  {
  }

  lemma RecheckPrevThread(m: Mem, l: Local, t: nat)
    requires Sized(m) && LInv(m, l, t) && l.pc.RecheckPrev? && Load(m, l, l.prev) == Link(l.cur, false) && !l.next.marked
    ensures Step(m, l).0 == m && LInv(m, Step(m, l).1, t)
  {
    if KeyOf(m, l.cur) == l.key { DecideKeeps(m, l, true, t); }
    else if Less(l.key, KeyOf(m, l.cur)) { DecideKeeps(m, Noted(l, false), false, t); }
    else {
      var l' := l.(prev := Field(l.cur), cur := l.next.p);
      if l.next.p == NULL { DecideKeeps(m, l', false, t); }
    }
  }

  lemma RecheckPrevRetry(m: Mem, l: Local, t: nat)
    requires Sized(m) && LInv(m, l, t) && l.pc.RecheckPrev? && (Load(m, l, l.prev) != Link(l.cur, false) || l.next.marked)
    ensures Step(m, l).0 == m && LInv(m, Step(m, l).1, t)
  {
  }

  /** Memory after the node cur, whose marked link leads to q, has been cut out behind prev. */
  function CutOut(m: Mem, l: Local, q: Ptr): Mem {
    SetStatus(Store(m, l, q).0.(chain := RemoveAt(m.chain, Slot(m.chain, l.prev))), l.cur, Gone)
  }

  ghost predicate CanCut(m: Mem, l: Local, q: Ptr) {
    && Behind(m, l) && !l.prev.Copy? && Load(m, l, l.prev) == Link(l.cur, false)
    && Published(m, l.cur) && Next(m, l.cur) == Link(q, true)
  }

  lemma CutRemoves(m: Mem, l: Local, q: Ptr)
    requires MemInv(m) && CanCut(m, l, q)
    ensures Removed(m, CutOut(m, l, q), Slot(m.chain, l.prev))
    ensures l.prev.Field? ==> m.status[l.prev.p].Listed?
  {
    AtPrev(m, l);
    var i := Slot(m.chain, l.prev);
    assert m.next[m.chain[i]].p == NodeAt(m.chain, i + 1);
  }

  lemma RemoveKeeps(m: Mem, m': Mem, i: nat)
    requires MemInv(m) && Removed(m, m', i)
    ensures MemInv(m') && KeySet(m') == KeySet(m)
  {
    RemoveKeepsSorted(m, m', i);
    RemoveKeepsLinked(m, m', i);
    RemoveKeepsPlaces(m, m', i);
    RemoveKeepsForward(m, m', i);
    RemoveKeys(m, m', i);
  }

  lemma RemoveRelied(m: Mem, m': Mem, i: nat, t: nat)
    requires Linked(m) && Removed(m, m', i)
    ensures Rely(m, m', t)
  {
  }

  lemma CutKeeps(m: Mem, l: Local, q: Ptr, t: nat)
    requires MemInv(m) && CanCut(m, l, q)
    ensures var m' := CutOut(m, l, q); MemInv(m') && Rely(m, m', t) && KeySet(m') == KeySet(m)
  {
    CutRemoves(m, l, q);
    RemoveKeeps(m, CutOut(m, l, q), Slot(m.chain, l.prev));
    RemoveRelied(m, CutOut(m, l, q), Slot(m.chain, l.prev), t);
  }

  /** Nothing a call counts on is lost by cutting out a marked node. */
  lemma CutStable(m: Mem, l: Local, q: Ptr, t: nat)
    requires Sized(m) && CanCut(m, l, q) && Common(m, l, t)
    requires l.prev.Field? ==> m.status[l.prev.p].Listed?
    ensures var m' := CutOut(m, l, q);
      Common(m', l, t) && Behind(m', l) && forall p :: Published(m, p) ==> Published(m', p) && KeyOf(m', p) == KeyOf(m, p)
  {
  }

  lemma UnlinkLast(m: Mem, l: Local, t: nat)
    requires MemInv(m) && Behind(m, l) && !l.prev.Copy? && Load(m, l, l.prev) == Link(NULL, false)
    ensures l.key !in KeySet(m)
  {
    var l' := l.(cur := NULL);
    AtPrev(m, l');
    NotBetween(m, Slot(m.chain, l.prev), l.key);
  }

  lemma UnlinkAgrees(m: Mem, l: Local, t: nat)
    requires MemInv(m) && LInv(m, l, t) && l.pc.Unlink? && Load(m, l, l.prev) == Link(l.cur, false)
    ensures Agrees(m, l, CutOut(m, l, l.next.p), Step(m, l).2)
  {
    var m' := CutOut(m, l, l.next.p);
    CutKeeps(m, l, l.next.p, t);
    if l.next.p == NULL {
      CutRemoves(m, l, NULL);
      CutStable(m, l, NULL, t);
      UnlinkLast(m', l, t);
      SightAgrees(m, l, false);
    }
  }

  lemma UnlinkMeets(m: Mem, l: Local, t: nat)
    requires MemInv(m) && LInv(m, l, t) && l.pc.Unlink? && Load(m, l, l.prev) == Link(l.cur, false)
    ensures var m' := CutOut(m, l, l.next.p);
      Common(m', l, t) && Behind(m', l) && (l.next.p == NULL || Published(m', l.next.p))
    ensures CanCut(m, l, l.next.p)
  {
    CutRemoves(m, l, l.next.p);
    CutStable(m, l, l.next.p, t);
    assert LeadsOn(m, l.cur);
  }

  lemma UnlinkThread(m: Mem, l: Local, t: nat)
    requires MemInv(m) && LInv(m, l, t) && l.pc.Unlink? && Load(m, l, l.prev) == Link(l.cur, false)
    ensures Step(m, l).0 == CutOut(m, l, l.next.p) && LInv(CutOut(m, l, l.next.p), Step(m, l).1, t)
  {
    UnlinkMeets(m, l, t);
    var m' := CutOut(m, l, l.next.p);
    if l.next.p == NULL { DecideKeeps(m', Noted(l.(cur := NULL), false), false, t); }
    else { UnlinkGoesOn(m', l, t); }
  }

  lemma UnlinkGoesOn(m: Mem, l: Local, t: nat)
    requires Common(m, l, t) && Behind(m, l) && !l.prev.Copy? && Published(m, l.next.p) && (l.took ==> l.kind.Remove?)
    ensures LInv(m, l.(cur := l.next.p, pc := ReadNext), t)
  {
  }

  lemma UnlinkKeeps(m: Mem, l: Local, t: nat)
    requires MemInv(m) && LInv(m, l, t) && l.pc.Unlink?
    ensures StepKept(m, l, t)
  {
    if Load(m, l, l.prev) == Link(l.cur, false) {
      CutKeeps(m, l, l.next.p, t);
      UnlinkAgrees(m, l, t);
      UnlinkThread(m, l, t);
    } else {
      NothingKeeps(m, t);
    }
  }

  lemma UnlinkMarkedKeeps(m: Mem, l: Local, t: nat)
    requires MemInv(m) && LInv(m, l, t) && l.pc.UnlinkMarked?
    ensures StepKept(m, l, t)
  {
    if Load(m, l, l.prev) == Link(l.cur, false) {
      CutKeeps(m, l, l.next.p, t);
      CutRemoves(m, l, l.next.p);
      CutStable(m, l, l.next.p, t);
    } else {
      NothingKeeps(m, t);
    }
  }

  lemma WriteNextKeeps(m: Mem, l: Local, t: nat)
    requires MemInv(m) && LInv(m, l, t) && l.pc.WriteNext?
    ensures StepKept(m, l, t)
  {
    PrivateKeeps(m, Step(m, l).0);
  }

  function LinkIn(m: Mem, l: Local): Mem {
    SetStatus(Store(m, l, l.node).0.(chain := InsertAt(m.chain, Slot(m.chain, l.prev), l.node)), l.node, Listed)
  }

  lemma CasAddInserts(m: Mem, l: Local, t: nat)
    requires MemInv(m) && LInv(m, l, t) && l.pc.CasAdd? && Load(m, l, l.prev) == Link(l.cur, false)
    ensures Inserted(m, LinkIn(m, l), Slot(m.chain, l.prev), l.node) && l.key !in KeySet(m)
    ensures l.prev.Field? ==> m.status[l.prev.p].Listed?
  {
    AtPrev(m, l);
    NotBetween(m, Slot(m.chain, l.prev), l.key);
  }

  lemma InsertKeeps(m: Mem, m': Mem, i: nat, p: Ptr)
    requires MemInv(m) && Inserted(m, m', i, p)
    ensures MemInv(m') && KeySet(m') == KeySet(m) + {KeyOf(m, p)}
  {
    InsertKeepsSorted(m, m', i, p);
    InsertKeepsLinked(m, m', i, p);
    InsertKeepsPlaces(m, m', i, p);
    InsertKeepsForward(m, m', i, p);
    InsertKeys(m, m', i, p);
  }

  lemma InsertRelied(m: Mem, m': Mem, i: nat, p: Ptr, t: nat)
    requires Linked(m) && Inserted(m, m', i, p) && m.status[p] == Private(t)
    ensures Rely(m, m', t)
  {
  }

  lemma CasAddMemory(m: Mem, l: Local, t: nat)
    requires MemInv(m) && LInv(m, l, t) && l.pc.CasAdd? && Load(m, l, l.prev) == Link(l.cur, false)
    ensures var m' := LinkIn(m, l); MemInv(m') && Rely(m, m', t) && KeySet(m') == KeySet(m) + {l.key}
  {
    CasAddInserts(m, l, t);
    InsertKeeps(m, LinkIn(m, l), Slot(m.chain, l.prev), l.node);
    InsertRelied(m, LinkIn(m, l), Slot(m.chain, l.prev), l.node, t);
  }

  lemma CasAddThread(m: Mem, l: Local, t: nat)
    requires Sized(m) && LInv(m, l, t) && l.pc.CasAdd? && Load(m, l, l.prev) == Link(l.cur, false)
    ensures Step(m, l).0 == LinkIn(m, l) && LInv(LinkIn(m, l), Step(m, l).1, t) && Step(m, l).2 == Takes(true)
  {
  }

  lemma CasAddKeeps(m: Mem, l: Local, t: nat)
    requires MemInv(m) && LInv(m, l, t) && l.pc.CasAdd?
    ensures StepKept(m, l, t)
  {
    if Load(m, l, l.prev) == Link(l.cur, false) {
      CasAddInserts(m, l, t);
      CasAddMemory(m, l, t);
      CasAddThread(m, l, t);
    } else {
      NothingKeeps(m, t);
    }
  }

  lemma MarkCurKeeps(m: Mem, l: Local, t: nat)
    requires MemInv(m) && LInv(m, l, t) && l.pc.MarkCur?
    ensures StepKept(m, l, t)
  {
    if Next(m, l.cur) == l.next {
      var m' := Step(m, l).0;
      MarkKeeps(m, m', l.cur);
      MarkKeys(m, m', l.cur);
    } else {
      NothingKeeps(m, t);
    }
  }

  /** Every step of every call keeps the list sorted and complete, leaves the other calls what they count
      on, and agrees with the specification. */
  lemma StepKeeps(m: Mem, l: Local, t: nat)
    requires MemInv(m) && LInv(m, l, t)
    ensures StepKept(m, l, t)
  {
    match l.pc {
      case ReadStart => ReadStartKeeps(m, l, t); NothingKeeps(m, t);
      case RecheckStart => RecheckStartKeeps(m, l, t); NothingKeeps(m, t);
      case ReadNext => ReadNextKeeps(m, l, t); NothingKeeps(m, t);
      case RecheckNext => RecheckNextThread(m, l, t); RecheckNextAgrees(m, l, t); NothingKeeps(m, t);
      case RecheckPrev => RecheckPrevKeeps(m, l, t); NothingKeeps(m, t);
      case Unlink => UnlinkKeeps(m, l, t);
      case WriteNext => WriteNextKeeps(m, l, t);
      case CasAdd => CasAddKeeps(m, l, t);
      case MarkCur => MarkCurKeeps(m, l, t);
      case UnlinkMarked => UnlinkMarkedKeeps(m, l, t);
      case Answer => NothingKeeps(m, t);
      case Crash =>
    }
  }

  lemma RecheckPrevKeeps(m: Mem, l: Local, t: nat)
    requires MemInv(m) && LInv(m, l, t) && l.pc.RecheckPrev?
    ensures ReadKept(m, l, t)
  {
    RecheckPrevAgrees(m, l, t);
    if Load(m, l, l.prev) == Link(l.cur, false) && !l.next.marked { RecheckPrevThread(m, l, t); }
    else { RecheckPrevRetry(m, l, t); }
  }

  /** What a step publishes has the call's key and what it marks is what a remove looks for. */
  ghost predicate OnlyOwnKey(m: Mem, l: Local, m': Mem) {
    forall p: Ptr ::
      && (Published(m', p) && !Published(m, p) ==>
            KeyOf(m', p) == l.key && !Next(m', p).marked && !l.kind.Search? && !l.kind.Remove?)
      && (Published(m, p) && Next(m', p).marked && !Next(m, p).marked ==> KeyOf(m, p) == l.key && l.kind.Remove?)
  }

  lemma ReadOnlyOwnKey(m: Mem, l: Local, t: nat)
    requires Sized(m) && LInv(m, l, t) && !l.pc.Unlink? && !l.pc.CasAdd? && !l.pc.UnlinkMarked?
    ensures OnlyOwnKey(m, l, Step(m, l).0)
  {
  }

  lemma CutOnlyOwnKey(m: Mem, l: Local, t: nat)
    requires Sized(m) && LInv(m, l, t) && (l.pc.Unlink? || l.pc.UnlinkMarked?)
    ensures OnlyOwnKey(m, l, Step(m, l).0)
  {
  }

  lemma AddOnlyOwnKey(m: Mem, l: Local, t: nat)
    requires Sized(m) && LInv(m, l, t) && l.pc.CasAdd?
    ensures OnlyOwnKey(m, l, Step(m, l).0)
  {
  }

  lemma StepOnlyOwnKey(m: Mem, l: Local, t: nat)
    requires Sized(m) && LInv(m, l, t)
    ensures OnlyOwnKey(m, l, Step(m, l).0)
  {
    if l.pc.CasAdd? { AddOnlyOwnKey(m, l, t); }
    else if l.pc.Unlink? || l.pc.UnlinkMarked? { CutOnlyOwnKey(m, l, t); }
    else { ReadOnlyOwnKey(m, l, t); }
  }

  lemma EnterKeeps(m: Mem, kind: Kind, key: Key, from: Cell, copy: Ptr, t: nat)
    requires MemInv(m)
    requires !from.Field? && (from.Copy? ==> Published(m, copy) && Less(KeyOf(m, copy), key) && !Next(m, copy).marked)
    ensures var (m', l) := Enter(m, kind, key, from, copy, t);
      MemInv(m') && Rely(m, m', t) && LInv(m', l, t) && KeySet(m') == KeySet(m)
  {
    PrivateKeeps(m, Enter(m, kind, key, from, copy, t).0);
  }
}
