/**
 The work-stealing pool: ws_scheduler.h and the worker loop of tp_exec.h, one queue operation a step.

 The queues are deques that behave as sequences, left end first (see module DequeResults), and takeRight waits
 while its queue is empty (see module BlockingDeque).  Tasks are numbered in the order in which they are
 submitted.  shutdown() sets the flag and then puts one null pointer into each queue; tasks are submitted
 only before.

 History variables: token says where each queue's null pointer is, and ran lists the tasks in the order in
 which they were run.
 */
module Pool {

  datatype Item = Task(id: nat) | Null

  datatype PC =
    | Fetch | CheckEmpty | Odd | OddPop            // getTask; Odd is "not empty after end signal"
    | Steal(i: nat) | PutBack(victim: nat) | Take  // stealing
    | Run(id: nat) | Stop | Exited | Crash         // WorkerThread::run

  datatype Token = NotYet | InQueue | Held(thief: nat) | Consumed

  datatype State = State(
    queues: seq<seq<Item>>, workers: seq<PC>, active: int, submitted: nat, started: bool, shut: nat, finished: bool,
    token: seq<Token>, ran: seq<nat>)

  /** A submission goes to any one queue: which one, is up to a counter that several threads may have changed. */
  datatype Action = Submit(q: nat) | Shutdown | Work(w: nat)

  function Init(n: nat): State {
    State(seq(n, _ => []), seq(n, _ => Fetch), n, 0, false, 0, false, seq(n, _ => NotYet), [])
  }

  function Queue(s: State, q: nat): seq<Item> { if q < |s.queues| then s.queues[q] else [] }
  /** What no step of a worker changes. */
  predicate SameShape(s: State, s': State) {
    |s'.workers| == |s.workers| && |s'.queues| == |s.queues| && s'.started == s.started && s'.shut == s.shut
  }

  function SetQueue(s: State, q: nat, items: seq<Item>): (s': State)
    ensures SameShape(s, s') && s'.workers == s.workers
  {
    if q < |s.queues| then s.(queues := s.queues[q := items]) else s
  }

  function PushLeft(s: State, q: nat, x: Item): (s': State)
    ensures SameShape(s, s') && s'.workers == s.workers
  {
    SetQueue(s, q, [x] + Queue(s, q))
  }

  function SetToken(s: State, q: nat, k: Token): (s': State)
    ensures SameShape(s, s') && s'.workers == s.workers
  {
    if q < |s.token| then s.(token := s.token[q := k]) else s
  }

  function Goto(s: State, w: nat, pc: PC): (s': State)
    requires w < |s.workers|
    ensures SameShape(s, s')
  {
    s.(workers := s.workers[w := pc])
  }

  function PopRight(s: State, q: nat): (s': State)
    ensures SameShape(s, s') && s'.workers == s.workers
  {
    if Queue(s, q) == [] then s else SetQueue(s, q, Queue(s, q)[..|Queue(s, q)| - 1])
  }

  function PopLeft(s: State, q: nat): (s': State)
    ensures SameShape(s, s') && s'.workers == s.workers
  {
    if Queue(s, q) == [] then s else SetQueue(s, q, Queue(s, q)[1..])
  }

  function RightEnd(s: State, q: nat): Item { if Queue(s, q) == [] then Null else Queue(s, q)[|Queue(s, q)| - 1] }
  function LeftEnd(s: State, q: nat): Item { if Queue(s, q) == [] then Null else Queue(s, q)[0] }

  /** One step of worker w. */
  function Step(s: State, w: nat): (s': State)
    requires w < |s.workers|
    ensures SameShape(s, s')
  {
    var n := |s.queues|;
    match s.workers[w]
    case Fetch =>
      if Queue(s, w) == [] then Goto(s, w, Steal(0))
      else
        (match RightEnd(s, w)
        case Task(id) => Goto(PopRight(s, w), w, Run(id))
        case Null => Goto(SetToken(PopRight(s, w), w, Consumed), w, CheckEmpty))
    case CheckEmpty => Goto(s, w, if Queue(s, w) == [] then Stop else Odd)
    case Odd => Goto(PushLeft(s, w, Null), w, OddPop)
    case OddPop =>
      if Queue(s, w) == [] then Goto(s, w, Stop)
      else
        (match RightEnd(s, w)
        case Task(id) => Goto(PopRight(s, w), w, Run(id))
        case Null => Goto(PopRight(s, w), w, Crash))
    case Steal(i) =>
      if i + 1 >= n then Goto(s, w, Take)
      else
        var victim := (i + w) % n;
        if Queue(s, victim) == [] then Goto(s, w, Steal(i + 1))
        else
          (match LeftEnd(s, victim)
          case Task(id) => Goto(PopLeft(s, victim), w, Run(id))
          case Null => Goto(SetToken(PopLeft(s, victim), victim, Held(w)), w, PutBack(victim)))
    case PutBack(victim) => Goto(SetToken(PushLeft(s, victim, Null), victim, InQueue), w, Take)
    case Take =>
      if Queue(s, w) == [] then s
      else
        (match RightEnd(s, w)
        case Task(id) => Goto(PopRight(s, w), w, Run(id))
        case Null => Goto(SetToken(PopRight(s, w), w, Consumed), w, Stop))
    case Run(id) => Goto(s.(ran := s.ran + [id]), w, Fetch)
    case Stop =>
      if s.active > 0 then Goto(s.(active := s.active - 1, finished := s.finished || s.active == 1), w, Exited)
      else Goto(s, w, Crash)
    case Exited => s
    case Crash => s
  }

  function Apply(s: State, act: Action): State {
    match act
    case Submit(q) =>
      if s.started || q >= |s.queues| then s
      else PushLeft(s, q, Task(s.submitted)).(submitted := s.submitted + 1)
    case Shutdown =>
      if !s.started then s.(started := true)
      else if s.shut < |s.queues| then SetToken(PushLeft(s, s.shut, Null), s.shut, InQueue).(shut := s.shut + 1)
      else s
    case Work(w) => if w < |s.workers| then Step(s, w) else s
  }

  function Exec(s: State, sched: seq<Action>): State {
    if sched == [] then s else Apply(Exec(s, sched[..|sched| - 1]), sched[|sched| - 1])
  }
}

/**
 When active_count has reached zero, every submitted task has run exactly once and nothing is left.
 */
module PoolProof {
  import opened Pool

  // ---------------------------------------------------------------- tokens

  predicate NoNull(q: seq<Item>) {
    forall i :: 0 <= i < |q| ==> q[i].Task?
  }

  /** The worker has been told to stop. */
  predicate Ending(pc: PC) { pc.CheckEmpty? || pc.Stop? || pc.Exited? }

  /** Queue q's one null pointer is leftmost in the queue, or held by one thief, or consumed by the owner. */
  predicate TokenOk(s: State, q: nat)
    requires q < |s.token|
  {
    match s.token[q]
    case NotYet => q >= s.shut && NoNull(Queue(s, q))
    case InQueue => s.started && Queue(s, q) != [] && Queue(s, q)[0] == Null && NoNull(Queue(s, q)[1..])
    case Held(w) => s.started && w < |s.workers| && s.workers[w] == PutBack(q) && NoNull(Queue(s, q))
    case Consumed => s.started && Queue(s, q) == [] && q < |s.workers| && Ending(s.workers[q])
  }

  predicate WorkerOk(s: State, w: nat)
    requires w < |s.workers|
  {
    match s.workers[w]
    case PutBack(q) => q < |s.token| && s.token[q] == Held(w)
    case CheckEmpty => w < |s.token| && s.token[w] == Consumed
    case Stop => w < |s.token| && s.token[w] == Consumed
    case Exited => w < |s.token| && s.token[w] == Consumed
    case Odd => false
    case OddPop => false
    case Crash => false
    case _ => true
  }

  predicate Sized(s: State) {
    |s.queues| == |s.workers| == |s.token| && s.shut <= |s.queues| && (!s.started ==> s.shut == 0)
  }

  ghost predicate TokensInv(s: State) {
    && Sized(s)
    && (forall q :: 0 <= q < |s.token| ==> TokenOk(s, q) && (s.token[q].NotYet? <==> q >= s.shut))
    && (forall w :: 0 <= w < |s.workers| ==> WorkerOk(s, w))
  }

  // ---------------------------------------------------------------- counting

  /** How often task id stands in one queue, in all of them, is being run, and has been run. */
  function InQueue1(q: seq<Item>, id: nat): nat {
    if q == [] then 0 else InQueue1(q[1..], id) + if q[0] == Task(id) then 1 else 0
  }

  function InQueues(queues: seq<seq<Item>>, id: nat): nat {
    if queues == [] then 0 else InQueues(queues[1..], id) + InQueue1(queues[0], id)
  }

  function BeingRun(workers: seq<PC>, id: nat): nat {
    if workers == [] then 0 else BeingRun(workers[1..], id) + RunBy(workers[0], id)
  }

  function RunBy(pc: PC, id: nat): nat { if pc == Run(id) then 1 else 0 }

  function TimesRun(ran: seq<nat>, id: nat): nat {
    if ran == [] then 0 else TimesRun(ran[..|ran| - 1], id) + if ran[|ran| - 1] == id then 1 else 0
  }

  function Alive(workers: seq<PC>): nat {
    if workers == [] then 0 else Alive(workers[1..]) + if workers[0].Exited? then 0 else 1
  }

  lemma {:induction false} QueuesUpdate(queues: seq<seq<Item>>, q: nat, items: seq<Item>, id: nat)
    requires q < |queues|
    ensures InQueues(queues[q := items], id) + InQueue1(queues[q], id) == InQueues(queues, id) + InQueue1(items, id)
  {
    if q > 0 {
      QueuesUpdate(queues[1..], q - 1, items, id);
      assert queues[q := items][1..] == queues[1..][q - 1 := items];
    } else {
      assert queues[q := items][1..] == queues[1..];
    }
  }

  lemma {:induction false} BeingRunUpdate(workers: seq<PC>, w: nat, pc: PC, id: nat)
    requires w < |workers|
    ensures BeingRun(workers[w := pc], id) + RunBy(workers[w], id) == BeingRun(workers, id) + RunBy(pc, id)
  {
    if w > 0 {
      BeingRunUpdate(workers[1..], w - 1, pc, id);
      assert workers[w := pc][1..] == workers[1..][w - 1 := pc];
    } else {
      assert workers[w := pc][1..] == workers[1..];
    }
  }

  lemma {:induction false} AliveUpdate(workers: seq<PC>, w: nat, pc: PC)
    requires w < |workers|
    ensures Alive(workers[w := pc]) + (if workers[w].Exited? then 0 else 1) == Alive(workers) + (if pc.Exited? then 0 else 1)
    ensures !workers[w].Exited? ==> Alive(workers) > 0
  {
    if w > 0 {
      AliveUpdate(workers[1..], w - 1, pc);
      assert workers[w := pc][1..] == workers[1..][w - 1 := pc];
    } else {
      assert workers[w := pc][1..] == workers[1..];
    }
  }

  lemma {:induction false} RightEndCounts(q: seq<Item>, id: nat)
    requires q != []
    ensures InQueue1(q, id) == InQueue1(q[..|q| - 1], id) + if q[|q| - 1] == Task(id) then 1 else 0
  {
    if |q| == 1 {
      assert q[1..] == [] && q[..0] == [];
    } else {
      RightEndCounts(q[1..], id);
      assert q[1..][..|q| - 2] == q[..|q| - 1][1..];
    }
  }

  /** Task id, once submitted, is in one queue, or run by one worker, or has been run, and only once. */
  ghost predicate Once(s: State, id: nat) {
    InQueues(s.queues, id) + BeingRun(s.workers, id) + TimesRun(s.ran, id) == if id < s.submitted then 1 else 0
  }

  ghost predicate TasksInv(s: State) {
    forall id: nat :: Once(s, id)
  }

  ghost predicate CountInv(s: State) {
    s.active == Alive(s.workers) && (s.finished <==> s.active == 0 && |s.workers| > 0)
  }

  ghost predicate Inv(s: State) {
    TokensInv(s) && TasksInv(s) && CountInv(s)
  }

  // ---------------------------------------------------------------- steps on tokens

  lemma RightEndMeans(s: State, q: nat)
    requires q < |s.token| && TokenOk(s, q) && Queue(s, q) != []
    ensures RightEnd(s, q) == Null ==> s.token[q] == InQueue && Queue(s, q) == [Null]
    ensures RightEnd(s, q).Task? && s.token[q] == InQueue ==> |Queue(s, q)| > 1
  {
    var items := Queue(s, q);
    if s.token[q] == InQueue && |items| > 1 { assert items[1..][|items| - 2] == items[|items| - 1]; }
  }

  lemma LeftEndMeans(s: State, q: nat)
    requires q < |s.token| && TokenOk(s, q) && Queue(s, q) != []
    ensures LeftEnd(s, q) == Null <==> s.token[q] == InQueue
  {
  }

  lemma PopRightKeeps(s: State, q: nat)
    requires q < |s.token| == |s.queues| && TokenOk(s, q) && Queue(s, q) != [] && RightEnd(s, q).Task?
    ensures TokenOk(PopRight(s, q), q)
  {
    RightEndMeans(s, q);
    var items := Queue(s, q);
    var rest := items[..|items| - 1];
    assert Queue(PopRight(s, q), q) == rest;
    if s.token[q] == InQueue { assert rest[1..] == items[1..][..|items| - 2]; }
  }

  lemma PopLeftKeeps(s: State, q: nat)
    requires q < |s.token| == |s.queues| && TokenOk(s, q) && Queue(s, q) != [] && LeftEnd(s, q).Task?
    ensures TokenOk(PopLeft(s, q), q)
  {
  }

  /** Worker w moves from a place where no token depends on it, and queue and token q may change with it. */
  lemma OthersKeep(s: State, s': State, w: nat, q: nat)
    requires TokensInv(s) && Sized(s') && w < |s.workers| && q < |s.token| && s'.started == s.started && s'.shut == s.shut
    requires |s'.workers| == |s.workers| && s'.workers == s.workers[w := s'.workers[w]]
    requires s'.queues == s.queues[q := s'.queues[q]] && s'.token == s.token[q := s'.token[q]]
    requires !Ending(s.workers[w]) || (Ending(s'.workers[w]) && s'.token[w] == Consumed && s'.queues == s.queues)
    requires s.workers[w].PutBack? ==> s.workers[w].victim == q
    requires TokenOk(s', q) && WorkerOk(s', w) && (s'.token[q].NotYet? <==> s.token[q].NotYet?)
    requires s.token[q].Held? ==> s.token[q] == s'.token[q] || s.token[q] == Held(w)
    requires s.token[q] == Consumed ==> s'.token[q] == Consumed
    ensures TokensInv(s')
  {
    forall p | 0 <= p < |s'.token| ensures TokenOk(s', p) && (s'.token[p].NotYet? <==> p >= s'.shut) {
      assert TokenOk(s, p);
    }
    forall v | 0 <= v < |s'.workers| ensures WorkerOk(s', v) { assert WorkerOk(s, v); }
  }

  lemma FetchTokens(s: State, w: nat)
    requires TokensInv(s) && w < |s.workers| && s.workers[w].Fetch?
    ensures TokensInv(Step(s, w))
  {
    assert TokenOk(s, w) && WorkerOk(s, w);
    if Queue(s, w) != [] {
      RightEndMeans(s, w);
      if RightEnd(s, w).Task? { PopRightKeeps(s, w); }
    }
    OthersKeep(s, Step(s, w), w, w);
  }

  lemma TakeTokens(s: State, w: nat)
    requires TokensInv(s) && w < |s.workers| && s.workers[w].Take?
    ensures TokensInv(Step(s, w))
  {
    assert TokenOk(s, w) && WorkerOk(s, w);
    if Queue(s, w) != [] {
      RightEndMeans(s, w);
      if RightEnd(s, w).Task? { PopRightKeeps(s, w); }
      OthersKeep(s, Step(s, w), w, w);
    }
  }

  lemma StealTokens(s: State, w: nat)
    requires TokensInv(s) && w < |s.workers| && s.workers[w].Steal?
    ensures TokensInv(Step(s, w))
  {
    var i, n := s.workers[w].i, |s.queues|;
    var victim := if i + 1 >= n then w else (i + w) % n;
    assert TokenOk(s, victim) && WorkerOk(s, w);
    if i + 1 < n && Queue(s, victim) != [] {
      LeftEndMeans(s, victim);
      if LeftEnd(s, victim).Task? { PopLeftKeeps(s, victim); }
    }
    OthersKeep(s, Step(s, w), w, victim);
  }

  lemma PutBackTokens(s: State, w: nat)
    requires TokensInv(s) && w < |s.workers| && s.workers[w].PutBack?
    ensures TokensInv(Step(s, w))
  {
    var q := s.workers[w].victim;
    assert WorkerOk(s, w) && TokenOk(s, q);
    assert Queue(Step(s, w), q)[1..] == Queue(s, q);
    OthersKeep(s, Step(s, w), w, q);
  }

  lemma EndTokens(s: State, w: nat)
    requires TokensInv(s) && w < |s.workers| && s.active > 0
    requires s.workers[w].CheckEmpty? || s.workers[w].Stop? || s.workers[w].Exited? || s.workers[w].Run?
    ensures TokensInv(Step(s, w))
  {
    assert WorkerOk(s, w) && TokenOk(s, w);
    if !s.workers[w].Exited? { OthersKeep(s, Step(s, w), w, w); }
  }

  lemma {:induction false} SomebodyAlive(workers: seq<PC>, w: nat)
    requires w < |workers| && !workers[w].Exited?
    ensures Alive(workers) > 0
  {
    AliveUpdate(workers, w, Exited);
  }

  lemma StepTokens(s: State, w: nat)
    requires Inv(s) && w < |s.workers|
    ensures TokensInv(Step(s, w))
  {
    assert WorkerOk(s, w);
    var pc := s.workers[w];
    if pc.Fetch? { FetchTokens(s, w); }
    else if pc.Take? { TakeTokens(s, w); }
    else if pc.Steal? { StealTokens(s, w); }
    else if pc.PutBack? { PutBackTokens(s, w); }
    else if !pc.Exited? {
      SomebodyAlive(s.workers, w);
      EndTokens(s, w);
    }
  }

  // ---------------------------------------------------------------- steps on tasks

  /** Worker w goes to pc, queue q becomes items, and task id is neither lost nor doubled. */
  lemma TaskMoves(s: State, w: nat, q: nat, items: seq<Item>, pc: PC, id: nat)
    requires Once(s, id) && w < |s.workers| && q < |s.queues|
    requires InQueue1(items, id) + RunBy(pc, id) == InQueue1(s.queues[q], id) + RunBy(s.workers[w], id)
    ensures Once(s.(queues := s.queues[q := items], workers := s.workers[w := pc]), id)
  {
    QueuesUpdate(s.queues, q, items, id);
    BeingRunUpdate(s.workers, w, pc, id);
  }

  /** The worker only changes its place. */
  lemma TaskStays(s: State, w: nat, pc: PC, id: nat)
    requires Once(s, id) && w < |s.workers| && RunBy(pc, id) == RunBy(s.workers[w], id)
    ensures Once(s.(workers := s.workers[w := pc]), id)
  {
    BeingRunUpdate(s.workers, w, pc, id);
  }

  lemma OwnQueueTask(s: State, w: nat, id: nat)
    requires Sized(s) && Once(s, id) && w < |s.workers| && (s.workers[w].Fetch? || s.workers[w].Take?)
    ensures Once(Step(s, w), id)
  {
    var items := s.queues[w];
    if items != [] {
      RightEndCounts(items, id);
      TaskMoves(s, w, w, items[..|items| - 1], Step(s, w).workers[w], id);
    } else if s.workers[w].Fetch? { TaskStays(s, w, Steal(0), id); }
  }

  lemma StealTask(s: State, w: nat, id: nat)
    requires Sized(s) && Once(s, id) && w < |s.workers| && s.workers[w].Steal?
    ensures Once(Step(s, w), id)
  {
    var i, n := s.workers[w].i, |s.queues|;
    var victim := if i + 1 >= n then w else (i + w) % n;
    var items := s.queues[victim];
    if i + 1 >= n || items == [] { TaskStays(s, w, Step(s, w).workers[w], id); }
    else { TaskMoves(s, w, victim, items[1..], Step(s, w).workers[w], id); }
  }

  lemma PutBackTask(s: State, w: nat, id: nat)
    requires Sized(s) && Once(s, id) && w < |s.workers| && s.workers[w].PutBack? && s.workers[w].victim < |s.queues|
    ensures Once(Step(s, w), id)
  {
    var q := s.workers[w].victim;
    assert ([Null] + s.queues[q])[1..] == s.queues[q];
    TaskMoves(s, w, q, [Null] + s.queues[q], Take, id);
  }

  lemma RunTask(s: State, w: nat, id: nat)
    requires Sized(s) && Once(s, id) && w < |s.workers| && s.workers[w].Run?
    ensures Once(Step(s, w), id)
  {
    BeingRunUpdate(s.workers, w, Fetch, id);
    RunCounts(s.ran, s.workers[w].id, id);
  }

  lemma RunCounts(ran: seq<nat>, x: nat, id: nat)
    ensures TimesRun(ran + [x], id) == TimesRun(ran, id) + if x == id then 1 else 0
  {
    assert (ran + [x])[..|ran|] == ran;
  }

  lemma EndTask(s: State, w: nat, id: nat)
    requires Sized(s) && Once(s, id) && w < |s.workers| && (s.workers[w].CheckEmpty? || s.workers[w].Stop?)
    ensures Once(Step(s, w), id)
  {
    TaskStays(s, w, Step(s, w).workers[w], id);
  }

  lemma StepTask(s: State, w: nat, id: nat)
    requires Inv(s) && w < |s.workers|
    ensures Once(Step(s, w), id)
  {
    assert Once(s, id) && WorkerOk(s, w);
    var pc := s.workers[w];
    if pc.Fetch? || pc.Take? { OwnQueueTask(s, w, id); }
    else if pc.Steal? { StealTask(s, w, id); }
    else if pc.PutBack? { PutBackTask(s, w, id); }
    else if pc.Run? { RunTask(s, w, id); }
    else if pc.CheckEmpty? || pc.Stop? { EndTask(s, w, id); }
  }

  lemma StepCounts(s: State, w: nat)
    requires Inv(s) && w < |s.workers|
    ensures CountInv(Step(s, w))
  {
    assert WorkerOk(s, w);
    if !s.workers[w].Exited? {
      SomebodyAlive(s.workers, w);
      AliveUpdate(s.workers, w, Step(s, w).workers[w]);
    }
  }

  lemma StepKeeps(s: State, w: nat)
    requires Inv(s) && w < |s.workers|
    ensures Inv(Step(s, w))
  {
    StepTokens(s, w);
    StepCounts(s, w);
    forall id: nat ensures Once(Step(s, w), id) { StepTask(s, w, id); }
  }

  // ---------------------------------------------------------------- submitting and shutting down

  lemma SubmitTask(s: State, q: nat, id: nat)
    requires Once(s, id) && q < |s.queues|
    ensures Once(PushLeft(s, q, Task(s.submitted)).(submitted := s.submitted + 1), id)
  {
    var items := [Task(s.submitted)] + s.queues[q];
    assert items[1..] == s.queues[q];
    QueuesUpdate(s.queues, q, items, id);
  }

  lemma PushTokens(s: State, q: nat, x: Item)
    requires TokensInv(s) && q < |s.queues| && !s.started && x.Task?
    ensures TokensInv(PushLeft(s, q, x))
  {
    var s' := PushLeft(s, q, x);
    forall p | 0 <= p < |s'.token| ensures TokenOk(s', p) && (s'.token[p].NotYet? <==> p >= s'.shut) { assert TokenOk(s, p); }
    forall v | 0 <= v < |s'.workers| ensures WorkerOk(s', v) { assert WorkerOk(s, v); }
  }

  lemma SubmitKeeps(s: State, q: nat)
    requires Inv(s)
    ensures Inv(Apply(s, Submit(q)))
  {
    if !s.started && q < |s.queues| {
      PushTokens(s, q, Task(s.submitted));
      CounterIrrelevant(PushLeft(s, q, Task(s.submitted)), s.submitted + 1);
      forall id: nat ensures Once(Apply(s, Submit(q)), id) {
        assert Once(s, id);
        SubmitTask(s, q, id);
      }
    }
  }

  lemma CounterIrrelevant(s: State, n: nat)
    requires TokensInv(s)
    ensures TokensInv(s.(submitted := n))
  {
    var s' := s.(submitted := n);
    forall p | 0 <= p < |s'.token| ensures TokenOk(s', p) && (s'.token[p].NotYet? <==> p >= s'.shut) { assert TokenOk(s, p); }
    forall v | 0 <= v < |s'.workers| ensures WorkerOk(s', v) { assert WorkerOk(s, v); }
  }

  lemma ShutdownTokens(s: State)
    requires TokensInv(s)
    ensures TokensInv(Apply(s, Shutdown))
  {
    var s' := Apply(s, Shutdown);
    if s.started && s.shut < |s.queues| { assert ([Null] + s.queues[s.shut])[1..] == s.queues[s.shut]; }
    forall p | 0 <= p < |s'.token| ensures TokenOk(s', p) && (s'.token[p].NotYet? <==> p >= s'.shut) { assert TokenOk(s, p); }
    forall v | 0 <= v < |s'.workers| ensures WorkerOk(s', v) { assert WorkerOk(s, v); }
  }

  lemma ShutdownTask(s: State, id: nat)
    requires Sized(s) && Once(s, id)
    ensures Once(Apply(s, Shutdown), id)
  {
    if s.started && s.shut < |s.queues| {
      var items := [Null] + s.queues[s.shut];
      assert items[1..] == s.queues[s.shut];
      QueuesUpdate(s.queues, s.shut, items, id);
    }
  }

  lemma ShutdownKeeps(s: State)
    requires Inv(s)
    ensures Inv(Apply(s, Shutdown))
  {
    ShutdownTokens(s);
    forall id: nat ensures Once(Apply(s, Shutdown), id) {
      assert Once(s, id);
      ShutdownTask(s, id);
    }
  }

  lemma ApplyKeeps(s: State, act: Action)
    requires Inv(s)
    ensures Inv(Apply(s, act))
  {
    match act {
      case Submit(q) => SubmitKeeps(s, q);
      case Shutdown => ShutdownKeeps(s);
      case Work(w) => if w < |s.workers| { StepKeeps(s, w); }
    }
  }

  lemma {:induction false} NothingYet(n: nat, id: nat)
    ensures var s := Init(n); InQueues(s.queues, id) == 0 && BeingRun(s.workers, id) == 0 && Alive(s.workers) == n
  {
    if n > 0 {
      NothingYet(n - 1, id);
      assert Init(n).queues[1..] == Init(n - 1).queues && Init(n).workers[1..] == Init(n - 1).workers;
    }
  }

  lemma {:induction false} RunKeeps(n: nat, sched: seq<Action>)
    ensures Inv(Exec(Init(n), sched))
  {
    if sched == [] {
      NothingYet(n, 0);
      forall id: nat ensures Once(Init(n), id) { NothingYet(n, id); }
    } else {
      RunKeeps(n, sched[..|sched| - 1]);
      ApplyKeeps(Exec(Init(n), sched[..|sched| - 1]), sched[|sched| - 1]);
    }
  }

  // ---------------------------------------------------------------- main results

  /** Once active_count is zero, the pool has finished: every submitted task has run exactly once, nothing else
      has run, and all queues are empty. */
  ghost predicate AllDone(s: State) {
    && (forall id: nat :: TimesRun(s.ran, id) == if id < s.submitted then 1 else 0)
    && (forall q :: 0 <= q < |s.queues| ==> s.queues[q] == [])
    && s.started && s.shut == |s.queues| && s.finished
  }

  lemma {:induction false} NobodyRuns(workers: seq<PC>, id: nat)
    requires Alive(workers) == 0
    ensures BeingRun(workers, id) == 0 && forall w :: 0 <= w < |workers| ==> workers[w].Exited?
  {
    if workers != [] { NobodyRuns(workers[1..], id); }
  }

  lemma {:induction false} NothingQueued(queues: seq<seq<Item>>, id: nat)
    requires forall q :: 0 <= q < |queues| ==> queues[q] == []
    ensures InQueues(queues, id) == 0
  {
    if queues != [] { NothingQueued(queues[1..], id); }
  }

  lemma InvAllDone(s: State)
    requires Inv(s) && s.active == 0 && |s.workers| > 0
    ensures AllDone(s)
  {
    NobodyRuns(s.workers, 0);
    forall q | 0 <= q < |s.queues| ensures s.queues[q] == [] {
      assert WorkerOk(s, q) && TokenOk(s, q);
    }
    assert WorkerOk(s, |s.workers| - 1) && TokenOk(s, |s.workers| - 1);
    forall id: nat ensures TimesRun(s.ran, id) == if id < s.submitted then 1 else 0 {
      assert Once(s, id);
      NobodyRuns(s.workers, id);
      NothingQueued(s.queues, id);
    }
  }

  lemma ShutdownRunsEverythingOnce(n: nat, sched: seq<Action>)
    requires n > 0
    ensures var s := Exec(Init(n), sched); s.active == 0 ==> AllDone(s)
  {
    RunKeeps(n, sched);
    SameSize(n, sched);
    if Exec(Init(n), sched).active == 0 { InvAllDone(Exec(Init(n), sched)); }
  }

  lemma {:induction false} SameSize(n: nat, sched: seq<Action>)
    ensures |Exec(Init(n), sched).workers| == n
  {
    if sched != [] {
      SameSize(n, sched[..|sched| - 1]);
    }
  }

  /** At all times: no task has run twice, the branch for a queue that is not empty after its end signal is
      never taken, neither assertion fails, and each null pointer is where it should be. */
  ghost predicate Orderly(s: State) {
    && (forall id: nat :: TimesRun(s.ran, id) <= 1)
    && (forall w :: 0 <= w < |s.workers| ==>
          !s.workers[w].Odd? && !s.workers[w].OddPop? && !s.workers[w].Crash? && (s.workers[w].Stop? ==> s.active > 0))
    && (forall q :: 0 <= q < |s.token| ==> TokenOk(s, q))
  }

  lemma PoolIsOrderly(n: nat, sched: seq<Action>)
    ensures Orderly(Exec(Init(n), sched))
  {
    RunKeeps(n, sched);
    InvOrderly(Exec(Init(n), sched));
  }

  lemma InvOrderly(s: State)
    requires Inv(s)
    ensures Orderly(s)
  {
    forall id: nat ensures TimesRun(s.ran, id) <= 1 { assert Once(s, id); }
    forall w | 0 <= w < |s.workers|
      ensures !s.workers[w].Odd? && !s.workers[w].OddPop? && !s.workers[w].Crash? && (s.workers[w].Stop? ==> s.active > 0)
    {
      assert WorkerOk(s, w);
      if s.workers[w].Stop? { SomebodyAlive(s.workers, w); }
    }
  }

  // ---------------------------------------------------------------- the pool comes to rest

  /** Worker w can take a step: it has not exited, and does not wait at its own empty queue. */
  predicate Enabled(s: State, w: nat) {
    w < |s.workers| && !s.workers[w].Exited? && !s.workers[w].Crash? && !(s.workers[w].Take? && Queue(s, w) == [])
  }

  /** After shutdown, as long as a worker is alive, some worker can take a step. */
  lemma NoDeadlock(n: nat, sched: seq<Action>, w: nat)
    requires var s := Exec(Init(n), sched);
      s.started && s.shut == |s.queues| && w < |s.workers| && !s.workers[w].Exited?
    ensures exists v: nat :: Enabled(Exec(Init(n), sched), v)
  {
    RunKeeps(n, sched);
    SomeoneCanStep(Exec(Init(n), sched), w);
  }

  /** If w waits at its empty queue, its null pointer is with a thief that is about to put it back. */
  lemma SomeoneCanStep(s: State, w: nat)
    requires Inv(s) && s.shut == |s.queues| && w < |s.workers| && !s.workers[w].Exited?
    ensures exists v: nat :: Enabled(s, v)
  {
    assert WorkerOk(s, w) && TokenOk(s, w);
    if s.workers[w].Take? && Queue(s, w) == [] {
      assert s.token[w].Held?;
      assert Enabled(s, s.token[w].thief);
    } else {
      assert Enabled(s, w);
    }
  }

  function Tasks(q: seq<Item>): nat {
    if q == [] then 0 else Tasks(q[1..]) + if q[0].Task? then 1 else 0
  }

  function AllTasks(queues: seq<seq<Item>>): nat {
    if queues == [] then 0 else AllTasks(queues[1..]) + Tasks(queues[0])
  }

  /** How far a worker is from the end of what it is doing, in a pool of n. */
  function Rank(pc: PC, n: nat): nat {
    match pc
    case Run(_) => n + 6
    case Fetch => n + 5
    case Steal(i) => if i <= n then n + 4 - i else 4
    case PutBack(_) => 3
    case CheckEmpty => 2
    case Take => 2
    case Stop => 1
    case _ => 0
  }

  function Ranks(workers: seq<PC>, n: nat): nat {
    if workers == [] then 0 else Ranks(workers[1..], n) + Rank(workers[0], n)
  }

  /** What is left to do: every queued task is worth more than any place a worker can be in. */
  function Measure(s: State): nat {
    (|s.queues| + 7) * AllTasks(s.queues) + Ranks(s.workers, |s.queues|)
  }

  lemma {:induction false} RanksUpdate(workers: seq<PC>, w: nat, pc: PC, n: nat)
    requires w < |workers|
    ensures Ranks(workers[w := pc], n) + Rank(workers[w], n) == Ranks(workers, n) + Rank(pc, n)
  {
    if w > 0 {
      RanksUpdate(workers[1..], w - 1, pc, n);
      assert workers[w := pc][1..] == workers[1..][w - 1 := pc];
    } else {
      assert workers[w := pc][1..] == workers[1..];
    }
  }

  lemma {:induction false} AllTasksUpdate(queues: seq<seq<Item>>, q: nat, items: seq<Item>)
    requires q < |queues|
    ensures AllTasks(queues[q := items]) + Tasks(queues[q]) == AllTasks(queues) + Tasks(items)
  {
    if q > 0 {
      AllTasksUpdate(queues[1..], q - 1, items);
      assert queues[q := items][1..] == queues[1..][q - 1 := items];
    } else {
      assert queues[q := items][1..] == queues[1..];
    }
  }

  lemma {:induction false} RightEndTasks(q: seq<Item>)
    requires q != []
    ensures Tasks(q) == Tasks(q[..|q| - 1]) + if q[|q| - 1].Task? then 1 else 0
  {
    if |q| == 1 {
      assert q[1..] == [] && q[..0] == [];
    } else {
      RightEndTasks(q[1..]);
      assert q[1..][..|q| - 2] == q[..|q| - 1][1..];
    }
  }

  /** Worker w goes to pc and queue q becomes items: either w gets on with its work, or a task leaves the queue. */
  lemma LessToDo(s: State, w: nat, q: nat, items: seq<Item>, pc: PC)
    requires w < |s.workers| && q < |s.queues|
    requires var n := |s.queues|;
      || (Tasks(items) == Tasks(s.queues[q]) && Rank(pc, n) < Rank(s.workers[w], n))
      || (Tasks(items) + 1 == Tasks(s.queues[q]) && Rank(pc, n) < n + 7)
    ensures Measure(s.(queues := s.queues[q := items], workers := s.workers[w := pc])) < Measure(s)
  {
    RanksUpdate(s.workers, w, pc, |s.queues|);
    AllTasksUpdate(s.queues, q, items);
    Cheaper(|s.queues| + 7, AllTasks(s.queues), AllTasks(s.queues[q := items]));
  }

  lemma Cheaper(c: nat, a: nat, b: nat)
    ensures b == a ==> c * b == c * a
    ensures b + 1 == a ==> c * b + c == c * a
  {
  }

  /** Tokens, flags and the record of what has run do not count. */
  lemma SameMeasure(s: State, s': State)
    requires s'.queues == s.queues && s'.workers == s.workers
    ensures Measure(s') == Measure(s)
  {
  }

  lemma OwnQueueLess(s: State, w: nat)
    requires Sized(s) && Enabled(s, w) && (s.workers[w].Fetch? || s.workers[w].Take?)
    ensures Measure(Step(s, w)) < Measure(s)
  {
    var items, s' := s.queues[w], Step(s, w);
    var items' := if items == [] then items else items[..|items| - 1];
    if items != [] { RightEndTasks(items); }
    LessToDo(s, w, w, items', s'.workers[w]);
    assert s.queues[w := s.queues[w]] == s.queues;
    SameMeasure(s.(queues := s.queues[w := items'], workers := s.workers[w := s'.workers[w]]), s');
  }

  lemma StealLess(s: State, w: nat)
    requires Sized(s) && w < |s.workers| && s.workers[w].Steal?
    ensures Measure(Step(s, w)) < Measure(s)
  {
    var i, n, s' := s.workers[w].i, |s.queues|, Step(s, w);
    var pc := s'.workers[w];
    if i + 1 >= n || s.queues[(i + w) % n] == [] {
      LessToDo(s, w, w, s.queues[w], pc);
      assert s.queues[w := s.queues[w]] == s.queues;
      SameMeasure(s.(workers := s.workers[w := pc]), s');
    } else {
      var q := (i + w) % n;
      LessToDo(s, w, q, s.queues[q][1..], pc);
      SameMeasure(s.(queues := s.queues[q := s.queues[q][1..]], workers := s.workers[w := pc]), s');
    }
  }

  lemma PutBackLess(s: State, w: nat)
    requires Sized(s) && w < |s.workers| && s.workers[w].PutBack? && s.workers[w].victim < |s.queues|
    ensures Measure(Step(s, w)) < Measure(s)
  {
    var q, s' := s.workers[w].victim, Step(s, w);
    assert ([Null] + s.queues[q])[1..] == s.queues[q];
    LessToDo(s, w, q, [Null] + s.queues[q], Take);
    SameMeasure(s.(queues := s.queues[q := [Null] + s.queues[q]], workers := s.workers[w := Take]), s');
  }

  lemma EndLess(s: State, w: nat)
    requires Inv(s) && w < |s.workers| && (s.workers[w].CheckEmpty? || s.workers[w].Run? || s.workers[w].Stop?)
    ensures Measure(Step(s, w)) < Measure(s)
  {
    assert WorkerOk(s, w) && TokenOk(s, w);
    SomebodyAlive(s.workers, w);
    var pc := Step(s, w).workers[w];
    LessToDo(s, w, w, s.queues[w], pc);
    assert s.queues[w := s.queues[w]] == s.queues;
    SameMeasure(s.(workers := s.workers[w := pc]), Step(s, w));
  }

  /** Every step a worker can take leaves less to do, so a pool that gets no more tasks comes to rest. */
  lemma StepDecreases(s: State, w: nat)
    requires Inv(s) && Enabled(s, w)
    ensures Measure(Step(s, w)) < Measure(s)
  {
    assert WorkerOk(s, w);
    var pc := s.workers[w];
    if pc.Fetch? || pc.Take? { OwnQueueLess(s, w); }
    else if pc.Steal? { StealLess(s, w); }
    else if pc.PutBack? { PutBackLess(s, w); }
    else { EndLess(s, w); }
  }

  /** How many steps of a schedule are steps that a worker can take. */
  function Effective(s: State, sched: seq<Action>): nat {
    if sched == [] then 0
    else
      var last := sched[|sched| - 1];
      Effective(s, sched[..|sched| - 1]) + if last.Work? && Enabled(Exec(s, sched[..|sched| - 1]), last.w) then 1 else 0
  }

  /** After shutdown, in any schedule, workers take at most Measure many steps. */
  lemma {:induction false} PoolComesToRest(n: nat, sched: seq<Action>, more: seq<Action>)
    requires var s := Exec(Init(n), sched); s.started && s.shut == |s.queues|
    ensures var s := Exec(Init(n), sched); Effective(s, more) + Measure(Exec(s, more)) <= Measure(s)
  {
    var s := Exec(Init(n), sched);
    if more != [] {
      var before, last := more[..|more| - 1], more[|more| - 1];
      PoolComesToRest(n, sched, before);
      StaysShut(n, sched, before);
      LastStep(Exec(s, before), last);
    }
  }

  lemma LastStep(s: State, act: Action)
    requires Inv(s) && s.started && s.shut == |s.queues|
    ensures Measure(Apply(s, act)) + (if act.Work? && Enabled(s, act.w) then 1 else 0) <= Measure(s)
  {
    if act.Work? && act.w < |s.workers| {
      assert WorkerOk(s, act.w);
      if Enabled(s, act.w) { StepDecreases(s, act.w); }
    }
  }

  lemma {:induction false} StaysShut(n: nat, sched: seq<Action>, more: seq<Action>)
    requires var s := Exec(Init(n), sched); s.started && s.shut == |s.queues|
    ensures var s' := Exec(Exec(Init(n), sched), more); Inv(s') && s'.started && s'.shut == |s'.queues|
  {
    if more == [] { RunKeeps(n, sched); }
    else {
      var before := more[..|more| - 1];
      StaysShut(n, sched, before);
      ShutStep(Exec(Exec(Init(n), sched), before), more[|more| - 1]);
    }
  }

  lemma ShutStep(s: State, act: Action)
    requires Inv(s) && s.started && s.shut == |s.queues|
    ensures var s' := Apply(s, act); Inv(s') && s'.started && s'.shut == |s'.queues|
  {
    ApplyKeeps(s, act);
  }
}
