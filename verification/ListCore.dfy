/**
 Michael's sorted list as ordered_list.h runs it, one access to shared memory a step.

 A deletion first marks the victim's next field and then unlinks it; any traversal that meets a marked node
 unlinks it too.  A call starts at a cell: the list's head, or, for the hash set, a local copy of a bucket
 cell.  Nodes are never reused, so the hazard pointers that find publishes play no part here.

 History variables, which no step looks at: status says where a node is, chain lists the nodes that can be
 reached from head, seen collects the answers a call could have given at a step it has passed, and took
 says that it has taken effect.  An operation is one of four kinds; AddAddr is add_returnAddress.
 */
module ListCore {
  type Ptr = nat
  const NULL: Ptr := 0

  /** SetNode: compared by hash key, then by element. */
  datatype Key = Key(k: int, e: int)

  predicate Less(a: Key, b: Key) {
    a.k < b.k || (a.k == b.k && a.e < b.e)
  }

  datatype Kind = Search | Add | AddAddr | Remove

  /** A next field: a pointer and the mark in its lowest bit. */
  datatype Link = Link(p: Ptr, marked: bool)
  datatype Status = Nil | Private(t: nat) | Listed | Gone

  datatype Mem = Mem(head: Link, keys: seq<Key>, next: seq<Link>, status: seq<Status>, chain: seq<Ptr>)

  /** What prev points to: head, the caller's copy of a bucket cell, or the next field of node p. */
  datatype Cell = Head | Copy | Field(p: Ptr)

  datatype PC =
    | ReadStart | RecheckStart | ReadNext | RecheckNext | RecheckPrev | Unlink   // find
    | WriteNext | CasAdd                                                         // add
    | MarkCur | UnlinkMarked                                                     // remove
    | Answer | Crash

  /** from is the cell that start points to, copy the content of the caller's copy of a bucket cell, and
      next the successor of cur as it was read, with its mark. */
  datatype Local = Local(
    kind: Kind, key: Key, from: Cell, copy: Link, node: Ptr,
    pc: PC, prev: Cell, cur: Ptr, next: Link, ans: bool, took: bool, seen: set<bool>)

  datatype Effect = Nothing | Takes(ans: bool) | Sees(ans: bool)

  /** What each kind does to the set of keys, and its answer. */
  function ListSpec(s: set<Key>, kind: Kind, key: Key): (set<Key>, bool) {
    match kind
    case Search => (s, key in s)
    case Add => (s + {key}, key !in s)
    case AddAddr => (s + {key}, key !in s)
    case Remove => (s - {key}, key in s)
  }

  function Next(m: Mem, p: Ptr): Link { if p < |m.next| then m.next[p] else Link(NULL, false) }
  function KeyOf(m: Mem, p: Ptr): Key { if p < |m.keys| then m.keys[p] else Key(0, 0) }

  function Load(m: Mem, l: Local, c: Cell): Link {
    match c
    case Head => m.head
    case Copy => l.copy
    case Field(p) => Next(m, p)
  }

  // ---------------------------------------------------------------- history variables

  function IndexOf(s: seq<Ptr>, p: Ptr): (i: nat)
    ensures p in s ==> i < |s| && s[i] == p
    ensures p !in s ==> i == |s|
  {
    if s == [] then 0 else if s[0] == p then 0 else 1 + IndexOf(s[1..], p)
  }

  /** The place in chain of the node that cell c refers to. */
  function Slot(chain: seq<Ptr>, c: Cell): nat {
    match c
    case Head => 0
    case Copy => 0
    case Field(p) => IndexOf(chain, p) + 1
  }

  function InsertAt(s: seq<Ptr>, i: nat, p: Ptr): seq<Ptr> { if i <= |s| then s[..i] + [p] + s[i..] else s }
  function RemoveAt(s: seq<Ptr>, i: nat): seq<Ptr> { if i < |s| then s[..i] + s[i + 1..] else s }

  // ---------------------------------------------------------------- one step

  /** The store of a successful compare-and-swap on the cell prev. */
  function Store(m: Mem, l: Local, p: Ptr): (Mem, Local) {
    match l.prev
    case Head => (m.(head := Link(p, false)), l)
    case Copy => (m, l.(copy := Link(p, false)))
    case Field(q) => (if q < |m.next| then m.(next := m.next[q := Link(p, false)]) else m, l)
  }

  function SetStatus(m: Mem, p: Ptr, s: Status): Mem {
    if p < |m.status| then m.(status := m.status[p := s]) else m
  }

  /** The call could answer now, if it went on to find that the key is there, or is not. */
  predicate Answers(l: Local, found: bool) {
    !l.took && match l.kind case Search => true case Remove => !found case _ => found
  }

  function Noted(l: Local, found: bool): Local {
    if Answers(l, found) then l.(seen := l.seen + {found && l.kind.Search?}) else l
  }

  function Sight(l: Local, found: bool): Effect {
    if Answers(l, found) then Sees(found && l.kind.Search?) else Nothing
  }

  /** find returns. */
  function Decide(l: Local, found: bool): Local {
    if l.took then l.(pc := Answer)
    else match l.kind
      case Search => l.(pc := Answer, ans := found)
      case Remove => if found then l.(pc := MarkCur) else l.(pc := Answer, ans := false)
      case _ => if found then l.(pc := Answer, ans := false) else l.(pc := WriteNext)
  }

  /** The top of find's loop. */
  function Top(l: Local): Local {
    if l.cur == NULL then Decide(l, false) else l.(pc := ReadNext)
  }

  function Step(m: Mem, l: Local): (Mem, Local, Effect) {
    match l.pc
    case ReadStart =>
      var v := Load(m, l, l.from);
      if v.marked then (m, l.(pc := Crash), Nothing)
      else (m, l.(pc := RecheckStart, prev := l.from, cur := v.p), Nothing)
    case RecheckStart =>
      if Load(m, l, l.prev) != Link(l.cur, false) then (m, l.(pc := ReadStart), Nothing)
      else if l.cur != NULL then (m, l.(pc := ReadNext), Nothing)
      else (m, Decide(Noted(l, false), false), Sight(l, false))
    case ReadNext => (m, l.(pc := RecheckNext, next := Next(m, l.cur)), Nothing)
    case RecheckNext =>
      if Next(m, l.cur) != l.next then (m, l.(pc := ReadStart), Nothing)
      else if !l.next.marked && KeyOf(m, l.cur) == l.key then
        (m, Noted(l, true).(pc := RecheckPrev), Sight(l, true))
      else if !l.next.marked && Less(KeyOf(m, l.cur), l.key) && l.next.p == NULL then
        (m, Noted(l, false).(pc := RecheckPrev), Sight(l, false))
      else (m, l.(pc := RecheckPrev), Nothing)
    case RecheckPrev =>
      if Load(m, l, l.prev) != Link(l.cur, false) then (m, l.(pc := ReadStart), Nothing)
      else if l.next.marked then (m, l.(pc := Unlink), Nothing)
      else if KeyOf(m, l.cur) == l.key then (m, Decide(l, true), Nothing)
      else if Less(l.key, KeyOf(m, l.cur)) then (m, Decide(Noted(l, false), false), Sight(l, false))
      else (m, Top(l.(prev := Field(l.cur), cur := l.next.p)), Nothing)
    case Unlink =>
      if Load(m, l, l.prev) != Link(l.cur, false) then (m, l.(pc := ReadStart), Nothing)
      else
        var (m1, l1) := Store(m, l, l.next.p);
        var m' := SetStatus(m1.(chain := RemoveAt(m.chain, Slot(m.chain, l.prev))), l.cur, Gone);
        if l.next.p != NULL then (m', l1.(cur := l.next.p, pc := ReadNext), Nothing)
        else (m', Decide(Noted(l1.(cur := NULL), false), false), Sight(l, false))
    case WriteNext =>
      (if l.node < |m.next| then m.(next := m.next[l.node := Link(l.cur, false)]) else m, l.(pc := CasAdd), Nothing)
    case CasAdd =>
      if Load(m, l, l.prev) != Link(l.cur, false) then (m, l.(pc := ReadStart), Nothing)
      else
        var (m1, l1) := Store(m, l, l.node);
        (SetStatus(m1.(chain := InsertAt(m.chain, Slot(m.chain, l.prev), l.node)), l.node, Listed),
         l1.(pc := Answer, cur := l.node, ans := true, took := true), Takes(true))
    case MarkCur =>
      if Next(m, l.cur) != l.next || l.cur >= |m.next| then (m, l.(pc := ReadStart), Nothing)
      else (m.(next := m.next[l.cur := Link(l.next.p, true)]), l.(pc := UnlinkMarked, ans := true, took := true), Takes(true))
    case UnlinkMarked =>
      if Load(m, l, l.prev) != Link(l.cur, false) then (m, l.(pc := ReadStart), Nothing)
      else
        var (m1, l1) := Store(m, l, l.next.p);
        (SetStatus(m1.(chain := RemoveAt(m.chain, Slot(m.chain, l.prev))), l.cur, Gone), l1.(pc := Answer), Nothing)
    case Answer => (m, l, Nothing)
    case Crash => (m, l, Nothing)
  }

  /** A call begins; the two kinds of add first get a fresh node. */
  function Enter(m: Mem, kind: Kind, key: Key, from: Cell, copy: Ptr, t: nat): (Mem, Local) {
    var l := Local(kind, key, from, Link(copy, false), NULL, ReadStart, from, NULL, Link(NULL, false), false, false, {});
    if kind.Add? || kind.AddAddr? then
      (m.(keys := m.keys + [key], next := m.next + [Link(NULL, false)], status := m.status + [Private(t)]), l.(node := |m.keys|))
    else (m, l)
  }

  const EMPTY := Mem(Link(NULL, false), [Key(0, 0)], [Link(NULL, false)], [Nil], [])
}
