/** The thread pool as a monitor: a FIFO queue under a mutex, a condition variable with
    spurious wake-ups, and a stop flag that is read and written without the mutex. */
module Scheduler {
  import opened Sums

  /** Identifies a submitted std::function; the same one may be submitted many times. */
  type Task = nat

  datatype Holder = Free | ByWorker(worker: nat) | ByCaller(caller: nat)

  /** The places a worker thread can be at. From Checking to Popping, in Popped and in Leaving
      it holds the mutex; MustBlock is the window between a false predicate and the atomic
      release-and-block of the condition variable. */
  datatype WorkerPc =
    | LoopTest | Locking | Checking | MustBlock | Blocked | Woken | Admitted | Popping
    | Popped(task: Task) | Executing(task: Task) | Leaving | Exited

  /** The places a thread calling run can be at. */
  datatype CallerPc = Idle | Entering(task: Task) | Holding(task: Task) | Pushed | Notifying

  /** The last three fields are history: what was submitted and dequeued, in order, and what
      has finished running. */
  datatype State = State(
    queue: seq<Task>, stop: bool, lock: Holder, workers: seq<WorkerPc>, callers: seq<CallerPc>,
    submitted: seq<Task>, dequeued: seq<Task>, finished: multiset<Task>)

  datatype Action =
    | WorkerStep(w: nat)
    | SpuriousWake(w: nat)
    | Call(c: nat, task: Task)
    | CallerStep(c: nat)
    | NotifyOne(c: nat, wakee: nat)   // some blocked worker is woken
    | NotifyNobody(c: nat)            // nobody was blocked
    | SetStop
    | NotifyAll

  function Init(capacity: nat, callers: nat): State {
    State([], false, Free, seq(capacity, _ => LoopTest), seq(callers, _ => Idle), [], [], multiset{})
  }

  predicate IsBlocked(s: State, w: nat) {
    w < |s.workers| && s.workers[w] == Blocked
  }

  predicate Enabled(s: State, a: Action) {
    match a
    case WorkerStep(w) =>
      w < |s.workers| && s.workers[w] != Blocked && s.workers[w] != Exited &&
      (s.workers[w] == Locking || s.workers[w] == Woken ==> s.lock == Free) &&
      (s.workers[w] == Popping ==> s.queue != [])
    case SpuriousWake(w) => IsBlocked(s, w)
    case Call(c, _) => c < |s.callers| && s.callers[c] == Idle
    case CallerStep(c) =>
      c < |s.callers| && s.callers[c] != Idle && s.callers[c] != Notifying &&
      (s.callers[c].Entering? ==> s.lock == Free)
    case NotifyOne(c, w) => c < |s.callers| && s.callers[c] == Notifying && IsBlocked(s, w)
    case NotifyNobody(c) =>
      c < |s.callers| && s.callers[c] == Notifying && forall w :: 0 <= w < |s.workers| ==> s.workers[w] != Blocked
    case SetStop => true
    case NotifyAll => s.stop
  }

  function WorkerNext(s: State, w: nat): State
    requires Enabled(s, WorkerStep(w))
  {
    match s.workers[w]
    case LoopTest => s.(workers := s.workers[w := if s.stop then Exited else Locking])
    case Locking => s.(workers := s.workers[w := Checking], lock := ByWorker(w))
    case Checking =>
      s.(workers := s.workers[w := if s.stop || s.queue != [] then Admitted else MustBlock])
    case MustBlock => s.(workers := s.workers[w := Blocked], lock := Free)
    case Woken => s.(workers := s.workers[w := Checking], lock := ByWorker(w))
    case Admitted =>
      s.(workers := s.workers[w := if s.stop && s.queue == [] then Leaving else Popping])
    case Popping =>
      s.(workers := s.workers[w := Popped(s.queue[0])], queue := s.queue[1..],
         dequeued := s.dequeued + [s.queue[0]])
    case Popped(t) => s.(workers := s.workers[w := Executing(t)], lock := Free)
    case Executing(t) =>
      s.(workers := s.workers[w := LoopTest], finished := s.finished + multiset{t})
    case Leaving => s.(workers := s.workers[w := Exited], lock := Free)
  }

  function CallerNext(s: State, c: nat): State
    requires Enabled(s, CallerStep(c))
  {
    match s.callers[c]
    case Entering(t) => s.(callers := s.callers[c := Holding(t)], lock := ByCaller(c))
    case Holding(t) =>
      s.(callers := s.callers[c := Pushed], queue := s.queue + [t], submitted := s.submitted + [t])
    case Pushed => s.(callers := s.callers[c := Notifying], lock := Free)
  }

  function WakeAll(ws: seq<WorkerPc>): seq<WorkerPc> {
    seq(|ws|, i requires 0 <= i < |ws| => if ws[i] == Blocked then Woken else ws[i])
  }

  function Next(s: State, a: Action): (r: State)
    requires Enabled(s, a)
    ensures |r.workers| == |s.workers| && |r.callers| == |s.callers|
  {
    match a
    case WorkerStep(w) => WorkerNext(s, w)
    case SpuriousWake(w) => s.(workers := s.workers[w := Woken])
    case Call(c, t) => s.(callers := s.callers[c := Entering(t)])
    case CallerStep(c) => CallerNext(s, c)
    case NotifyOne(c, w) => s.(callers := s.callers[c := Idle], workers := s.workers[w := Woken])
    case NotifyNobody(c) => s.(callers := s.callers[c := Idle])
    case SetStop => s.(stop := true)
    case NotifyAll => s.(workers := WakeAll(s.workers))
  }

  // ---------- runs ----------

  predicate Valid(s: State, acts: seq<Action>)
    decreases |acts|
  {
    acts == [] || (Enabled(s, acts[0]) && Valid(Next(s, acts[0]), acts[1..]))
  }

  function Exec(s: State, acts: seq<Action>): (r: State)
    requires Valid(s, acts)
    ensures |r.workers| == |s.workers| && |r.callers| == |s.callers|
    decreases |acts|
  {
    if acts == [] then s else Exec(Next(s, acts[0]), acts[1..])
  }

  lemma OneStep(s: State, a: Action)
    requires Enabled(s, a)
    ensures Valid(s, [a]) && Exec(s, [a]) == Next(s, a)
  {
    assert [a][1..] == [];
  }

  // ---------- the monitor invariant ----------

  predicate WorkerHolds(pc: WorkerPc) {
    pc == Checking || pc == MustBlock || pc == Admitted || pc == Popping || pc.Popped? || pc == Leaving
  }

  predicate CallerHolds(pc: CallerPc) {
    pc.Holding? || pc == Pushed
  }

  /** The mutex is held by exactly the thread whose program point says so. */
  ghost predicate Exclusion(s: State) {
    && (forall w: nat :: w < |s.workers| ==> (WorkerHolds(s.workers[w]) <==> s.lock == ByWorker(w)))
    && (forall c: nat :: c < |s.callers| ==> (CallerHolds(s.callers[c]) <==> s.lock == ByCaller(c)))
    && (s.lock.ByWorker? ==> s.lock.worker < |s.workers|)
    && (s.lock.ByCaller? ==> s.lock.caller < |s.callers|)
  }

  predicate Knows(s: State, pc: WorkerPc) {
    && (pc == MustBlock ==> s.queue == [])
    && (pc == Admitted ==> s.stop || s.queue != [])
    && (pc == Popping ==> s.queue != [])
    && (pc == Leaving ==> s.queue == [])
    && (pc == Leaving || pc == Exited ==> s.stop)
  }

  /** What each program point of a worker knows about the queue and the flag. */
  ghost predicate Informed(s: State) {
    forall w: nat :: w < |s.workers| ==> Knows(s, s.workers[w])
  }

  ghost predicate Inv(s: State) {
    Exclusion(s) && Informed(s) && s.submitted == s.dequeued + s.queue
  }

  lemma WorkerKeepsExclusion(s: State, w: nat)
    requires Exclusion(s) && Enabled(s, WorkerStep(w))
    ensures Exclusion(WorkerNext(s, w))
  {
    var r := WorkerNext(s, w);
    assert WorkerHolds(r.workers[w]) <==> r.lock == ByWorker(w);
    assert r.workers == s.workers[w := r.workers[w]] && r.callers == s.callers;
  }

  lemma WorkerStaysInformed(s: State, w: nat)
    requires Inv(s) && Enabled(s, WorkerStep(w))
    ensures Informed(WorkerNext(s, w))
  {
    var r := WorkerNext(s, w);
    forall v: nat | v < |r.workers| ensures Knows(r, r.workers[v]) {
      assert Knows(s, s.workers[v]) && Knows(s, s.workers[w]);
    }
  }

  lemma WorkerKeepsInv(s: State, w: nat)
    requires Inv(s) && Enabled(s, WorkerStep(w))
    ensures Inv(WorkerNext(s, w))
  {
    WorkerKeepsExclusion(s, w);
    WorkerStaysInformed(s, w);
  }

  lemma CallerKeepsInv(s: State, c: nat)
    requires Inv(s) && Enabled(s, CallerStep(c))
    ensures Inv(CallerNext(s, c))
  {
    var r := CallerNext(s, c);
    assert forall w: nat :: w < |s.workers| ==> !(s.lock == ByCaller(c) && WorkerHolds(s.workers[w]));
  }

  lemma NotifyKeepsInv(s: State, c: nat, w: nat)
    requires Inv(s) && Enabled(s, NotifyOne(c, w))
    ensures Inv(Next(s, NotifyOne(c, w)))
  {
  }

  lemma CallKeepsInv(s: State, c: nat, t: Task)
    requires Inv(s) && Enabled(s, Call(c, t))
    ensures Inv(Next(s, Call(c, t)))
  {
  }

  lemma NotifyNobodyKeepsInv(s: State, c: nat)
    requires Inv(s) && Enabled(s, NotifyNobody(c))
    ensures Inv(Next(s, NotifyNobody(c)))
  {
  }

  lemma SetStopKeepsInv(s: State)
    requires Inv(s)
    ensures Inv(Next(s, SetStop))
  {
  }

  lemma SpuriousKeepsInv(s: State, w: nat)
    requires Inv(s) && IsBlocked(s, w)
    ensures Inv(Next(s, SpuriousWake(w)))
  {
  }

  lemma NotifyAllKeepsInv(s: State)
    requires Inv(s) && s.stop
    ensures Inv(Next(s, NotifyAll))
  {
  }

  lemma StepKeepsInv(s: State, a: Action)
    requires Inv(s) && Enabled(s, a)
    ensures Inv(Next(s, a))
  {
    match a
    case WorkerStep(w) => WorkerKeepsInv(s, w);
    case CallerStep(c) => CallerKeepsInv(s, c);
    case NotifyOne(c, w) => NotifyKeepsInv(s, c, w);
    case SpuriousWake(w) => SpuriousKeepsInv(s, w);
    case NotifyAll => NotifyAllKeepsInv(s);
    case Call(c, t) => CallKeepsInv(s, c, t);
    case NotifyNobody(c) => NotifyNobodyKeepsInv(s, c);
    case SetStop => SetStopKeepsInv(s);
  }

  lemma {:induction false} RunKeepsInv(s: State, acts: seq<Action>)
    requires Inv(s) && Valid(s, acts)
    ensures Inv(Exec(s, acts))
    decreases |acts|
  {
    if acts == [] {
    } else {
      StepKeepsInv(s, acts[0]);
      RunKeepsInv(Next(s, acts[0]), acts[1..]);
    }
  }

  /** No two threads are inside the mutex. */
  ghost predicate Apart(s: State) {
    && (forall v: nat, w: nat :: v < w < |s.workers| ==>
          !(WorkerHolds(s.workers[v]) && WorkerHolds(s.workers[w])))
    && (forall v: nat, w: nat :: v < w < |s.callers| ==>
          !(CallerHolds(s.callers[v]) && CallerHolds(s.callers[w])))
    && (forall w: nat, c: nat :: w < |s.workers| && c < |s.callers| ==>
          !(WorkerHolds(s.workers[w]) && CallerHolds(s.callers[c])))
  }

  /** In every reachable state: mutual exclusion on the queue, FIFO order, a front() and pop() that
      never meet an empty queue, a worker that returns after its wait only with the flag set and
      nothing left to do, and no mutex in the hands of a worker that sleeps or runs a task. */
  lemma MonitorIsSafe(capacity: nat, callers: nat, acts: seq<Action>)
    requires Valid(Init(capacity, callers), acts)
    ensures var s := Exec(Init(capacity, callers), acts);
            && Apart(s)
            && s.submitted == s.dequeued + s.queue
            && (forall w: nat :: w < capacity && s.workers[w] == Popping ==> s.queue != [])
            && (forall w: nat :: w < capacity && s.workers[w] == Leaving ==> s.stop && s.queue == [])
            && (forall w: nat :: w < capacity && s.lock == ByWorker(w) ==>
                  s.workers[w] != Blocked && s.workers[w] != Exited && !s.workers[w].Executing?)
  {
    RunKeepsInv(Init(capacity, callers), acts);
    var s := Exec(Init(capacity, callers), acts);
    assert forall w: nat :: w < capacity ==> Knows(s, s.workers[w]);
  }

  // ---------- no task is lost or run twice ----------

  function Runs(pc: WorkerPc, t: Task): nat {
    if (pc.Popped? || pc.Executing?) && pc.task == t then 1 else 0
  }

  /** How many workers have taken t off the queue and not finished it. */
  ghost function InHand(ws: seq<WorkerPc>, t: Task): nat {
    if ws == [] then 0 else Runs(ws[0], t) + InHand(ws[1..], t)
  }

  lemma {:induction false} InHandUpdate(ws: seq<WorkerPc>, w: nat, pc: WorkerPc, t: Task)
    requires w < |ws|
    ensures InHand(ws[w := pc], t) == InHand(ws, t) - Runs(ws[w], t) + Runs(pc, t)
  {
    if w == 0 {
      assert ws[0 := pc][1..] == ws[1..];
    } else {
      InHandUpdate(ws[1..], w - 1, pc, t);
      assert ws[w := pc][1..] == ws[1..][w - 1 := pc];
    }
  }

  lemma {:induction false} WakingHoldsNoTask(ws: seq<WorkerPc>, t: Task)
    ensures InHand(WakeAll(ws), t) == InHand(ws, t)
  {
    if ws == [] {
    } else {
      WakingHoldsNoTask(ws[1..], t);
      assert WakeAll(ws)[1..] == WakeAll(ws[1..]);
    }
  }

  ghost predicate Conserved(s: State, t: Task) {
    multiset(s.dequeued)[t] == s.finished[t] + InHand(s.workers, t)
  }

  lemma AppendCounts(xs: seq<Task>, x: Task, t: Task)
    ensures multiset(xs + [x])[t] == multiset(xs)[t] + if x == t then 1 else 0
  {
  }

  lemma FinishCounts(m: multiset<Task>, x: Task, t: Task)
    ensures (m + multiset{x})[t] == m[t] + if x == t then 1 else 0
  {
  }

  lemma PopConserves(s: State, w: nat, t: Task)
    requires Conserved(s, t) && Enabled(s, WorkerStep(w)) && s.workers[w] == Popping
    ensures Conserved(WorkerNext(s, w), t)
  {
    InHandUpdate(s.workers, w, Popped(s.queue[0]), t);
    AppendCounts(s.dequeued, s.queue[0], t);
  }

  lemma FinishConserves(s: State, w: nat, t: Task)
    requires Conserved(s, t) && Enabled(s, WorkerStep(w)) && s.workers[w].Executing?
    ensures Conserved(WorkerNext(s, w), t)
  {
    InHandUpdate(s.workers, w, LoopTest, t);
    FinishCounts(s.finished, s.workers[w].task, t);
  }

  lemma MoveConserves(s: State, w: nat, t: Task)
    requires Conserved(s, t) && Enabled(s, WorkerStep(w))
    requires s.workers[w] != Popping && !s.workers[w].Executing?
    ensures Conserved(WorkerNext(s, w), t)
  {
    InHandUpdate(s.workers, w, WorkerNext(s, w).workers[w], t);
  }

  lemma WorkerConserves(s: State, w: nat, t: Task)
    requires Conserved(s, t) && Enabled(s, WorkerStep(w))
    ensures Conserved(WorkerNext(s, w), t)
  {
    if s.workers[w] == Popping {
      PopConserves(s, w, t);
    } else if s.workers[w].Executing? {
      FinishConserves(s, w, t);
    } else {
      MoveConserves(s, w, t);
    }
  }

  lemma StepConserves(s: State, a: Action, t: Task)
    requires Conserved(s, t) && Enabled(s, a)
    ensures Conserved(Next(s, a), t)
  {
    match a
    case WorkerStep(w) => WorkerConserves(s, w, t);
    case SpuriousWake(w) => InHandUpdate(s.workers, w, Woken, t);
    case NotifyOne(_, w) => InHandUpdate(s.workers, w, Woken, t);
    case NotifyAll => WakingHoldsNoTask(s.workers, t);
    case _ =>
  }

  lemma {:induction false} RunConserves(s: State, acts: seq<Action>, t: Task)
    requires Conserved(s, t) && Valid(s, acts)
    ensures Conserved(Exec(s, acts), t)
    decreases |acts|
  {
    if acts == [] {
    } else {
      StepConserves(s, acts[0], t);
      RunConserves(Next(s, acts[0]), acts[1..], t);
    }
  }

  lemma {:induction false} NothingInHandAtFirst(n: nat, t: Task)
    ensures InHand(seq(n, _ => LoopTest), t) == 0
  {
    if n == 0 {
    } else {
      NothingInHandAtFirst(n - 1, t);
      assert seq(n, _ => LoopTest)[1..] == seq(n - 1, _ => LoopTest);
    }
  }

  lemma ReachableConserved(capacity: nat, callers: nat, acts: seq<Action>, t: Task)
    requires Valid(Init(capacity, callers), acts)
    ensures Conserved(Exec(Init(capacity, callers), acts), t)
  {
    NothingInHandAtFirst(capacity, t);
    RunConserves(Init(capacity, callers), acts, t);
  }

  function CallsWith(a: Action, t: Task): nat {
    if a.Call? && a.task == t then 1 else 0
  }

  /** How often run has been called with t. */
  function Called(acts: seq<Action>, t: Task): nat {
    if acts == [] then 0 else CallsWith(acts[0], t) + Called(acts[1..], t)
  }

  predicate CarriesTask(pc: CallerPc, t: Task) {
    (pc.Entering? || pc.Holding?) && pc.task == t
  }

  /** A caller on its way to push t. */
  ghost function Carries(t: Task): CallerPc -> int {
    pc => if CarriesTask(pc, t) then 1 else 0
  }

  /** The calls of run with t that the state accounts for. */
  ghost function CallsSeen(s: State, t: Task): int {
    multiset(s.submitted)[t] + Sum(s.callers, Carries(t))
  }

  lemma CallerSubmits(s: State, c: nat, t: Task)
    requires Enabled(s, CallerStep(c))
    ensures CallsSeen(CallerNext(s, c), t) == CallsSeen(s, t)
  {
    SumUpdate(s.callers, Carries(t), c, CallerNext(s, c).callers[c]);
    if s.callers[c].Holding? {
      AppendCounts(s.submitted, s.callers[c].task, t);
    }
  }

  lemma WorkerSubmits(s: State, w: nat, t: Task)
    requires Enabled(s, WorkerStep(w))
    ensures CallsSeen(WorkerNext(s, w), t) == CallsSeen(s, t)
  {
  }

  lemma StepSubmits(s: State, a: Action, t: Task)
    requires Enabled(s, a)
    ensures CallsSeen(Next(s, a), t) == CallsSeen(s, t) + CallsWith(a, t)
  {
    match a
    case WorkerStep(w) => WorkerSubmits(s, w, t);
    case CallerStep(c) => CallerSubmits(s, c, t);
    case Call(c, task) => SumUpdate(s.callers, Carries(t), c, Entering(task));
    case NotifyOne(c, _) => SumUpdate(s.callers, Carries(t), c, Idle);
    case NotifyNobody(c) => SumUpdate(s.callers, Carries(t), c, Idle);
    case _ =>
  }

  lemma {:induction false} RunSubmits(s: State, acts: seq<Action>, t: Task)
    requires Valid(s, acts)
    ensures CallsSeen(Exec(s, acts), t) == CallsSeen(s, t) + Called(acts, t)
    decreases |acts|
  {
    if acts == [] {
    } else {
      StepSubmits(s, acts[0], t);
      RunSubmits(Next(s, acts[0]), acts[1..], t);
    }
  }

  /** In every reachable state each call of run has its task in exactly one place: with the caller
      that has yet to push it, queued, in the hands of one worker, or finished. */
  lemma EveryTaskOnce(capacity: nat, callers: nat, acts: seq<Action>, t: Task)
    requires Valid(Init(capacity, callers), acts)
    ensures var s := Exec(Init(capacity, callers), acts);
            && multiset(s.submitted)[t] == multiset(s.queue)[t] + InHand(s.workers, t) + s.finished[t]
            && Called(acts, t) == Sum(s.callers, Carries(t)) + multiset(s.submitted)[t]
  {
    ReachableConserved(capacity, callers, acts, t);
    RunKeepsInv(Init(capacity, callers), acts);
    SumBounds(Init(capacity, callers).callers, Carries(t), 0, 0);
    RunSubmits(Init(capacity, callers), acts, t);
  }

  // ---------- no lost wake-up ----------

  /** Awake and on the way to the queue, not running a task. */
  function Awake(pc: WorkerPc): int {
    match pc
    case Blocked => 0
    case Popped(_) => 0
    case Executing(_) => 0
    case Leaving => 0
    case Exited => 0
    case _ => 1
  }

  /** Between the push and the notify_one of a call of run. */
  function OwesNotify(pc: CallerPc): int {
    if pc == Pushed || pc == Notifying then 1 else 0
  }

  ghost predicate SomeBlocked(s: State) {
    exists w: nat :: IsBlocked(s, w)
  }

  /** While a worker sleeps un-notified, every queued task has somebody coming for it. */
  ghost predicate NoLostWakeup(s: State) {
    !s.stop && SomeBlocked(s) ==>
      |s.queue| <= Sum(s.callers, OwesNotify) + Sum(s.workers, Awake)
  }

  lemma CountsNonNegative(s: State)
    ensures 0 <= Sum(s.callers, OwesNotify) && 0 <= Sum(s.workers, Awake)
  {
    SumBounds(s.callers, OwesNotify, 0, 1);
    SumBounds(s.workers, Awake, 0, 1);
  }

  lemma WorkerKeepsNoLostWakeup(s: State, w: nat)
    requires Informed(s) && NoLostWakeup(s) && Enabled(s, WorkerStep(w))
    ensures NoLostWakeup(WorkerNext(s, w))
  {
    var r := WorkerNext(s, w);
    if s.workers[w] == MustBlock {
      assert Knows(s, MustBlock);
      CountsNonNegative(r);
    } else if !r.stop && SomeBlocked(r) {
      var v: nat :| IsBlocked(r, v);
      assert IsBlocked(s, v);
      assert |r.queue| - Awake(r.workers[w]) <= |s.queue| - Awake(s.workers[w]);
      SumUpdate(s.workers, Awake, w, r.workers[w]);
      assert r.workers == s.workers[w := r.workers[w]];
    }
  }

  lemma CallerKeepsNoLostWakeup(s: State, c: nat)
    requires NoLostWakeup(s) && Enabled(s, CallerStep(c))
    ensures NoLostWakeup(CallerNext(s, c))
  {
    var r := CallerNext(s, c);
    SumUpdate(s.callers, OwesNotify, c, r.callers[c]);
    assert forall v: nat :: IsBlocked(r, v) ==> IsBlocked(s, v);
  }

  lemma WakingKeepsNoLostWakeup(s: State, a: Action)
    requires NoLostWakeup(s) && Enabled(s, a) && (a.SpuriousWake? || a.NotifyOne?)
    ensures NoLostWakeup(Next(s, a))
  {
    assert IsBlocked(s, if a.SpuriousWake? then a.w else a.wakee);
    if a.SpuriousWake? {
      SumUpdate(s.workers, Awake, a.w, Woken);
    } else {
      SumUpdate(s.callers, OwesNotify, a.c, Idle);
      SumUpdate(s.workers, Awake, a.wakee, Woken);
    }
  }

  lemma StepKeepsNoLostWakeup(s: State, a: Action)
    requires Inv(s) && NoLostWakeup(s) && Enabled(s, a)
    ensures NoLostWakeup(Next(s, a))
  {
    match a
    case WorkerStep(w) => WorkerKeepsNoLostWakeup(s, w);
    case CallerStep(c) => CallerKeepsNoLostWakeup(s, c);
    case SpuriousWake(_) => WakingKeepsNoLostWakeup(s, a);
    case NotifyOne(_, _) => WakingKeepsNoLostWakeup(s, a);
    case Call(c, t) =>
      SumUpdate(s.callers, OwesNotify, c, Entering(t));
      assert forall v: nat :: IsBlocked(Next(s, a), v) ==> IsBlocked(s, v);
    case _ =>
  }

  lemma {:induction false} RunKeepsNoLostWakeup(s: State, acts: seq<Action>)
    requires Inv(s) && NoLostWakeup(s) && Valid(s, acts)
    ensures NoLostWakeup(Exec(s, acts))
    decreases |acts|
  {
    if acts == [] {
    } else {
      StepKeepsInv(s, acts[0]);
      StepKeepsNoLostWakeup(s, acts[0]);
      RunKeepsNoLostWakeup(Next(s, acts[0]), acts[1..]);
    }
  }

  lemma WakeupsAreNeverLost(capacity: nat, callers: nat, acts: seq<Action>)
    requires Valid(Init(capacity, callers), acts)
    ensures NoLostWakeup(Exec(Init(capacity, callers), acts))
  {
    RunKeepsNoLostWakeup(Init(capacity, callers), acts);
  }

  // ---------- every submitted task is finished ----------

  /** A step of a thread that is under way: no new call, no spurious wake-up, no stop. */
  predicate IsMove(a: Action) {
    a.WorkerStep? || a.CallerStep? || a.NotifyOne? || a.NotifyNobody?
  }

  ghost predicate MovesOnly(acts: seq<Action>) {
    forall i :: 0 <= i < |acts| ==> IsMove(acts[i])
  }

  ghost predicate NoMoveLeft(s: State) {
    forall a :: IsMove(a) ==> !Enabled(s, a)
  }

  function WorkerLoad(pc: WorkerPc): int {
    match pc
    case Popped(_) => 8
    case Executing(_) => 7
    case LoopTest => 6
    case Locking => 5
    case Woken => 5
    case Checking => 4
    case Admitted => 3
    case Popping => 2
    case MustBlock => 1
    case _ => 0
  }

  function CallerLoad(pc: CallerPc): int {
    match pc
    case Entering(_) => 16
    case Holding(_) => 15
    case Pushed => 7
    case Notifying => 6
    case Idle => 0
  }

  /** An upper bound on the moves that are still possible before the stop. */
  ghost function Load(s: State): int {
    Sum(s.workers, WorkerLoad) + Sum(s.callers, CallerLoad) + 7 * |s.queue|
  }

  lemma WorkerLowersOwnLoad(s: State, w: nat)
    requires Informed(s) && !s.stop && Enabled(s, WorkerStep(w))
    ensures var r := WorkerNext(s, w);
            && !r.stop && r.workers == s.workers[w := r.workers[w]] && r.callers == s.callers
            && WorkerLoad(r.workers[w]) + 7 * |r.queue| < WorkerLoad(s.workers[w]) + 7 * |s.queue|
  {
    assert Knows(s, s.workers[w]);
  }

  lemma WorkerLowersLoad(s: State, w: nat)
    requires Informed(s) && !s.stop && Enabled(s, WorkerStep(w))
    ensures Load(WorkerNext(s, w)) < Load(s) && !WorkerNext(s, w).stop
  {
    WorkerLowersOwnLoad(s, w);
    SumUpdate(s.workers, WorkerLoad, w, WorkerNext(s, w).workers[w]);
  }

  lemma MoveLowersLoad(s: State, a: Action)
    requires Inv(s) && !s.stop && IsMove(a) && Enabled(s, a)
    ensures Load(Next(s, a)) < Load(s) && !Next(s, a).stop
  {
    if a.WorkerStep? {
      WorkerLowersLoad(s, a.w);
    } else {
      SumUpdate(s.callers, CallerLoad, a.c, Next(s, a).callers[a.c]);
      if a.NotifyOne? {
        SumUpdate(s.workers, WorkerLoad, a.wakee, Woken);
      }
    }
  }

  lemma LoadNonNegative(s: State)
    ensures 0 <= Load(s) <= 8 * |s.workers| + 16 * |s.callers| + 7 * |s.queue|
  {
    SumBounds(s.workers, WorkerLoad, 0, 8);
    SumBounds(s.callers, CallerLoad, 0, 16);
  }

  lemma {:induction false} MovesAreBounded(s: State, acts: seq<Action>)
    requires Inv(s) && !s.stop && Valid(s, acts) && MovesOnly(acts)
    ensures |acts| + Load(Exec(s, acts)) <= Load(s) && !Exec(s, acts).stop
    decreases |acts|
  {
    if acts == [] {
    } else {
      StepKeepsInv(s, acts[0]);
      MoveLowersLoad(s, acts[0]);
      MovesAreBounded(Next(s, acts[0]), acts[1..]);
    }
  }

  lemma HolderCanStep(s: State, w: nat)
    requires Inv(s) && s.lock == ByWorker(w)
    ensures Enabled(s, WorkerStep(w))
  {
    assert Knows(s, s.workers[w]) && WorkerHolds(s.workers[w]);
  }

  lemma HolderMoves(s: State)
    requires Inv(s) && s.lock != Free
    ensures !NoMoveLeft(s)
  {
    match s.lock
    case ByWorker(w) => HolderCanStep(s, w);
    case ByCaller(c) =>
      assert CallerHolds(s.callers[c]);
      assert Enabled(s, CallerStep(c));
  }

  lemma NoMoveMeansAsleep(s: State)
    requires Inv(s) && !s.stop && NoMoveLeft(s) && s.workers != []
    ensures forall w: nat :: w < |s.workers| ==> s.workers[w] == Blocked
    ensures forall c: nat :: c < |s.callers| ==> s.callers[c] == Idle
  {
    if s.lock != Free {
      HolderMoves(s);
    }
    forall w: nat | w < |s.workers| ensures s.workers[w] == Blocked {
      assert Knows(s, s.workers[w]) && !WorkerHolds(s.workers[w]);
      assert !Enabled(s, WorkerStep(w));
    }
    forall c: nat | c < |s.callers| ensures s.callers[c] == Idle {
      var sleeper: nat := 0;
      assert IsBlocked(s, sleeper) && !CallerHolds(s.callers[c]);
      assert !Enabled(s, CallerStep(c)) && !Enabled(s, NotifyOne(c, sleeper));
    }
  }

  /** Before the stop the pool comes to rest only with an empty queue. */
  lemma RestMeansDrained(s: State)
    requires Inv(s) && NoLostWakeup(s) && !s.stop && NoMoveLeft(s) && s.workers != []
    ensures s.queue == []
  {
    NoMoveMeansAsleep(s);
    SumBounds(s.workers, Awake, 0, 0);
    SumBounds(s.callers, OwesNotify, 0, 0);
    var sleeper: nat := 0;
    assert IsBlocked(s, sleeper);
  }

  lemma {:induction false} SleepersHoldNothing(ws: seq<WorkerPc>, t: Task)
    requires forall w :: 0 <= w < |ws| ==> ws[w] == Blocked
    ensures InHand(ws, t) == 0
  {
    if ws == [] {
    } else {
      SleepersHoldNothing(ws[1..], t);
    }
  }

  /** A pool at rest has finished everything that was submitted. */
  lemma RestMeansFinished(s: State, t: Task)
    requires Inv(s) && NoLostWakeup(s) && Conserved(s, t) && !s.stop && NoMoveLeft(s) && s.workers != []
    ensures s.queue == [] && multiset(s.submitted)[t] == s.finished[t]
  {
    RestMeansDrained(s);
    NoMoveMeansAsleep(s);
    SleepersHoldNothing(s.workers, t);
    assert s.submitted == s.dequeued;
  }

  lemma MovesFinishTasks(s: State, moves: seq<Action>, t: Task)
    requires Inv(s) && NoLostWakeup(s) && Conserved(s, t) && !s.stop && s.workers != []
    requires Valid(s, moves) && MovesOnly(moves)
    ensures |moves| <= 8 * |s.workers| + 16 * |s.callers| + 7 * |s.queue|
    ensures var e := Exec(s, moves);
            NoMoveLeft(e) ==> e.queue == [] && multiset(e.submitted)[t] == e.finished[t]
  {
    var e := Exec(s, moves);
    MovesAreBounded(s, moves);
    LoadNonNegative(s);
    LoadNonNegative(e);
    if NoMoveLeft(e) {
      RunKeepsInv(s, moves);
      RunKeepsNoLostWakeup(s, moves);
      RunConserves(s, moves, t);
      RestMeansFinished(e, t);
    }
  }

  /** Before the stop, from every reachable state, the threads under way make a bounded number of
      moves whatever their schedule, and when none is left every submitted task is finished:
      nothing depends on a spurious wake-up or on another call of run. */
  lemma EveryTaskFinishes(capacity: nat, callers: nat, before: seq<Action>, s: State, moves: seq<Action>, t: Task)
    requires capacity >= 1 && Valid(Init(capacity, callers), before) && s == Exec(Init(capacity, callers), before)
    requires !s.stop && Valid(s, moves) && MovesOnly(moves)
    ensures |moves| <= 8 * capacity + 16 * callers + 7 * |s.queue|
    ensures var e := Exec(s, moves);
            NoMoveLeft(e) ==> e.queue == [] && multiset(e.submitted)[t] == e.finished[t]
  {
    RunKeepsInv(Init(capacity, callers), before);
    RunKeepsNoLostWakeup(Init(capacity, callers), before);
    ReachableConserved(capacity, callers, before, t);
    MovesFinishTasks(s, moves, t);
  }

  // ---------- after the stop ----------

  /** Whether a worker can still dequeue a task once the flag is set: only if it is already past
      the loop test and has not dequeued since. */
  function PopsLeft(pc: WorkerPc): int {
    match pc
    case LoopTest => 0
    case Popped(_) => 0
    case Executing(_) => 0
    case Leaving => 0
    case Exited => 0
    case _ => 1
  }

  function IsPop(s: State, a: Action, w: nat): nat
    requires Enabled(s, a)
  {
    if a == WorkerStep(w) && s.workers[w] == Popping then 1 else 0
  }

  /** The number of tasks worker w dequeues in a run. */
  function Pops(s: State, acts: seq<Action>, w: nat): nat
    requires Valid(s, acts)
    decreases |acts|
  {
    if acts == [] then 0 else IsPop(s, acts[0], w) + Pops(Next(s, acts[0]), acts[1..], w)
  }

  lemma StepUsesUpPops(s: State, a: Action, w: nat)
    requires s.stop && Enabled(s, a) && w < |s.workers|
    ensures Next(s, a).stop
    ensures IsPop(s, a, w) + PopsLeft(Next(s, a).workers[w]) <= PopsLeft(s.workers[w])
  {
  }

  lemma {:induction false} OnePopEach(s: State, acts: seq<Action>, w: nat)
    requires s.stop && Valid(s, acts) && w < |s.workers|
    ensures Pops(s, acts, w) + PopsLeft(Exec(s, acts).workers[w]) <= PopsLeft(s.workers[w])
    decreases |acts|
  {
    if acts == [] {
    } else {
      StepUsesUpPops(s, acts[0], w);
      OnePopEach(Next(s, acts[0]), acts[1..], w);
    }
  }

  lemma {:induction false} WakingKeepsPops(ws: seq<WorkerPc>)
    ensures Sum(WakeAll(ws), PopsLeft) == Sum(ws, PopsLeft)
  {
    if ws == [] {
    } else {
      WakingKeepsPops(ws[1..]);
      assert WakeAll(ws)[1..] == WakeAll(ws[1..]);
    }
  }

  lemma WorkerSpendsPops(s: State, w: nat)
    requires s.stop && Enabled(s, WorkerStep(w))
    ensures var r := WorkerNext(s, w);
            r.stop && s.dequeued <= r.dequeued &&
            |r.dequeued| + Sum(r.workers, PopsLeft) <= |s.dequeued| + Sum(s.workers, PopsLeft)
  {
    var after := WorkerNext(s, w).workers[w];
    assert |WorkerNext(s, w).dequeued| + PopsLeft(after) <= |s.dequeued| + PopsLeft(s.workers[w]);
    SumUpdate(s.workers, PopsLeft, w, after);
    assert WorkerNext(s, w).workers == s.workers[w := after];
  }

  lemma StepSpendsPops(s: State, a: Action)
    requires s.stop && Enabled(s, a)
    ensures var r := Next(s, a);
            r.stop && s.dequeued <= r.dequeued &&
            |r.dequeued| + Sum(r.workers, PopsLeft) <= |s.dequeued| + Sum(s.workers, PopsLeft)
  {
    match a
    case WorkerStep(w) => WorkerSpendsPops(s, w);
    case SpuriousWake(w) => SumUpdate(s.workers, PopsLeft, w, Woken);
    case NotifyOne(_, w) => SumUpdate(s.workers, PopsLeft, w, Woken);
    case NotifyAll => WakingKeepsPops(s.workers);
    case _ =>
  }

  lemma {:induction false} RunSpendsPops(s: State, acts: seq<Action>)
    requires s.stop && Valid(s, acts)
    ensures var r := Exec(s, acts);
            s.dequeued <= r.dequeued &&
            |r.dequeued| + Sum(r.workers, PopsLeft) <= |s.dequeued| + Sum(s.workers, PopsLeft)
    decreases |acts|
  {
    if acts == [] {
    } else {
      StepSpendsPops(s, acts[0]);
      RunSpendsPops(Next(s, acts[0]), acts[1..]);
    }
  }

  lemma AtMostOneEach(s: State, acts: seq<Action>)
    requires s.stop && Valid(s, acts)
    ensures forall w: nat :: w < |s.workers| ==> Pops(s, acts, w) <= 1
  {
    forall w: nat | w < |s.workers| ensures Pops(s, acts, w) <= 1 {
      OnePopEach(s, acts, w);
    }
  }

  /** Once the flag is set, in any state that respects the monitor invariant, each worker dequeues
      at most one more task, so at most capacity tasks start afterwards; what is never started is
      exactly a suffix of the submissions. */
  lemma StopLetsEachWorkerTakeOne(s: State, acts: seq<Action>)
    requires Inv(s) && s.stop && Valid(s, acts)
    ensures var e := Exec(s, acts);
            && (forall w: nat :: w < |s.workers| ==> Pops(s, acts, w) <= 1)
            && s.dequeued <= e.dequeued && |e.dequeued| <= |s.dequeued| + |s.workers|
            && e.submitted == e.dequeued + e.queue
  {
    AtMostOneEach(s, acts);
    RunSpendsPops(s, acts);
    SumBounds(s.workers, PopsLeft, 0, 1);
    SumBounds(Exec(s, acts).workers, PopsLeft, 0, 1);
    RunKeepsInv(s, acts);
  }

  // ---------- joining the workers in the destructor ----------

  lemma Prepend(s: State, a: Action, rest: seq<Action>)
    requires Enabled(s, a) && Valid(Next(s, a), rest)
    ensures Valid(s, [a] + rest) && Exec(s, [a] + rest) == Exec(Next(s, a), rest)
  {
    OneStep(s, a);
    assert ([a] + rest)[1..] == rest;
  }

  /** What can happen while the destructor waits in its joins. */
  ghost predicate WorkersOnly(acts: seq<Action>) {
    forall i :: 0 <= i < |acts| ==> acts[i].WorkerStep? || acts[i].SpuriousWake?
  }

  /** No worker can go on by itself; only a spurious wake-up might still happen. */
  ghost predicate Quiet(s: State) {
    forall w: nat :: !Enabled(s, WorkerStep(w))
  }

  ghost predicate AllExited(s: State) {
    forall w: nat :: w < |s.workers| ==> s.workers[w] == Exited
  }

  /** The joins return: however the workers are scheduled and spuriously woken, when none can go on
      all have exited. */
  ghost predicate Joins(s: State) {
    forall acts :: Valid(s, acts) && WorkersOnly(acts) && Quiet(Exec(s, acts)) ==> AllExited(Exec(s, acts))
  }

  function StepsLeft(pc: WorkerPc): int {
    match pc
    case MustBlock => 10
    case Blocked => 9
    case Woken => 8
    case Locking => 8
    case Checking => 7
    case Admitted => 6
    case Popping => 5
    case Popped(_) => 4
    case Executing(_) => 3
    case LoopTest => 2
    case Leaving => 1
    case Exited => 0
  }

  lemma StopStepCounts(s: State, a: Action)
    requires s.stop && Enabled(s, a) && (a.WorkerStep? || a.SpuriousWake?)
    ensures Next(s, a).stop && Next(s, a).callers == s.callers
    ensures Sum(Next(s, a).workers, StepsLeft) < Sum(s.workers, StepsLeft)
  {
    var after := Next(s, a).workers[a.w];
    assert StepsLeft(after) < StepsLeft(s.workers[a.w]);
    SumUpdate(s.workers, StepsLeft, a.w, after);
    assert Next(s, a).workers == s.workers[a.w := after];
  }

  lemma StepsLeftBounds(ws: seq<WorkerPc>)
    ensures 0 <= Sum(ws, StepsLeft) <= 10 * |ws|
  {
    SumBounds(ws, StepsLeft, 0, 10);
  }

  /** After the stop the workers take at most ten steps each, spurious wake-ups included. */
  lemma {:induction false} WorkersSettle(s: State, acts: seq<Action>)
    requires s.stop && Valid(s, acts) && WorkersOnly(acts)
    ensures |acts| + Sum(Exec(s, acts).workers, StepsLeft) <= Sum(s.workers, StepsLeft)
    ensures |acts| <= 10 * |s.workers|
    decreases |acts|
  {
    StepsLeftBounds(s.workers);
    StepsLeftBounds(Exec(s, acts).workers);
    if acts == [] {
    } else {
      StopStepCounts(s, acts[0]);
      WorkersSettle(Next(s, acts[0]), acts[1..]);
    }
  }

  /** The workers can come to rest without any spurious wake-up. */
  lemma {:induction false} SettleSomehow(s: State) returns (acts: seq<Action>)
    requires s.stop
    ensures Valid(s, acts) && Quiet(Exec(s, acts))
    ensures forall i :: 0 <= i < |acts| ==> acts[i].WorkerStep?
    decreases Sum(s.workers, StepsLeft)
  {
    if w: nat :| Enabled(s, WorkerStep(w)) {
      StopStepCounts(s, WorkerStep(w));
      StepsLeftBounds(s.workers);
      var rest := SettleSomehow(WorkerNext(s, w));
      Prepend(s, WorkerStep(w), rest);
      acts := [WorkerStep(w)] + rest;
    } else {
      acts := [];
    }
  }

  predicate Asleep(pc: WorkerPc) {
    pc == MustBlock || pc == Blocked
  }

  lemma SleepStep(s: State, a: Action, w: nat)
    requires s.stop && Enabled(s, a) && (a.WorkerStep? || a.SpuriousWake?) && w < |s.workers|
    ensures Asleep(Next(s, a).workers[w]) <==> Asleep(s.workers[w]) && a != SpuriousWake(w)
  {
  }

  /** After the stop no worker falls asleep that was not already about to, and the only way out of
      sleep is a spurious wake-up. */
  lemma {:induction false} SleepersStay(s: State, acts: seq<Action>, w: nat)
    requires s.stop && Valid(s, acts) && WorkersOnly(acts) && w < |s.workers|
    ensures Asleep(Exec(s, acts).workers[w]) <==> Asleep(s.workers[w]) && SpuriousWake(w) !in acts
    decreases |acts|
  {
    if acts == [] {
    } else {
      StopStepCounts(s, acts[0]);
      SleepStep(s, acts[0], w);
      SleepersStay(Next(s, acts[0]), acts[1..], w);
      assert acts == [acts[0]] + acts[1..];
    }
  }

  lemma {:induction false} StopAndCallersStay(s: State, acts: seq<Action>)
    requires s.stop && Valid(s, acts) && WorkersOnly(acts)
    ensures Exec(s, acts).stop && Exec(s, acts).callers == s.callers
    decreases |acts|
  {
    if acts == [] {
    } else {
      StopStepCounts(s, acts[0]);
      StopAndCallersStay(Next(s, acts[0]), acts[1..]);
    }
  }

  ghost predicate CallersIdle(s: State) {
    forall c: nat :: c < |s.callers| ==> s.callers[c] == Idle
  }

  lemma QuietMeansExitedOrAsleep(s: State, w: nat)
    requires Inv(s) && s.stop && Quiet(s) && CallersIdle(s) && w < |s.workers|
    ensures s.workers[w] == Exited || s.workers[w] == Blocked
  {
    match s.lock
    case ByCaller(c) => assert false;
    case ByWorker(v) =>
      HolderCanStep(s, v);
    case Free =>
      assert !Enabled(s, WorkerStep(w)) && !WorkerHolds(s.workers[w]);
  }

  /** After the notification and once no worker can go on, a worker has exited exactly when it was
      not between a false predicate and blocking at the notification, or was spuriously woken. */
  lemma WorkerJoinsExactly(s: State, acts: seq<Action>, w: nat)
    requires Inv(s) && s.stop && CallersIdle(s) && w < |s.workers|
    requires Valid(Next(s, NotifyAll), acts) && WorkersOnly(acts) && Quiet(Exec(Next(s, NotifyAll), acts))
    ensures Exec(Next(s, NotifyAll), acts).workers[w] == Exited <==>
            s.workers[w] != MustBlock || SpuriousWake(w) in acts
  {
    var r := Next(s, NotifyAll);
    NotifyAllKeepsInv(s);
    RunKeepsInv(r, acts);
    StopAndCallersStay(r, acts);
    SleepersStay(r, acts, w);
    QuietMeansExitedOrAsleep(Exec(r, acts), w);
  }

  /** The destructor sets the flag and notifies without taking the mutex. Its joins return, under
      every schedule and every spurious wake-up, exactly when at the notification no worker is
      between a false predicate and blocking. */
  lemma DestructorJoinsExactly(s: State)
    requires Inv(s) && s.stop && CallersIdle(s)
    ensures Joins(Next(s, NotifyAll)) <==> forall w: nat :: w < |s.workers| ==> s.workers[w] != MustBlock
  {
    var r := Next(s, NotifyAll);
    if w: nat :| w < |s.workers| && s.workers[w] == MustBlock {
      var acts := SettleSomehow(r);
      WorkerJoinsExactly(s, acts, w);
      assert !AllExited(Exec(r, acts));
    } else {
      forall acts | Valid(r, acts) && WorkersOnly(acts) && Quiet(Exec(r, acts))
        ensures AllExited(Exec(r, acts))
      {
        forall w: nat | w < |s.workers| ensures Exec(r, acts).workers[w] == Exited {
          WorkerJoinsExactly(s, acts, w);
        }
      }
    }
  }

  /** The bad window is reachable: a worker that saw the flag clear goes to sleep after the only
      notification, and the join never returns. */
  lemma StopCanBeMissed() returns (acts: seq<Action>)
    ensures Valid(Init(1, 0), acts) && Exec(Init(1, 0), acts).stop
    ensures !Joins(Next(Exec(Init(1, 0), acts), NotifyAll))
  {
    var s0 := Init(1, 0);
    var a := WorkerStep(0);
    var s1 := Next(s0, a);
    var s2 := Next(s1, a);
    var s3 := Next(s2, a);
    var s4 := Next(s3, SetStop);
    OneStep(s3, SetStop);
    Prepend(s2, a, [SetStop]);
    Prepend(s1, a, [a] + [SetStop]);
    Prepend(s0, a, [a] + ([a] + [SetStop]));
    acts := [a] + ([a] + ([a] + [SetStop]));
    RunKeepsInv(s0, acts);
    var sleeper: nat := 0;
    assert s4.workers[sleeper] == MustBlock;
    DestructorJoinsExactly(s4);
  }

  // ---------- the pool object ----------

  /** The members of parallel_scheduler, updated in place, with the program counters of the threads
      inside its methods. Each method below is one atomic step of the text it is named after. */
  class Pool {
    var queue: seq<Task>
    var stopFlag: bool
    var mutex: Holder
    var workers: seq<WorkerPc>
    var callers: seq<CallerPc>
    ghost var submitted: seq<Task>
    ghost var dequeued: seq<Task>
    ghost var finished: multiset<Task>

    ghost function Snapshot(): State
      reads this
    {
      State(queue, stopFlag, mutex, workers, callers, submitted, dequeued, finished)
    }

    constructor (capacity: nat, clients: nat)
      ensures Snapshot() == Init(capacity, clients)
      ensures queue == [] && !stopFlag && mutex == Free && |workers| == capacity
      ensures forall w :: 0 <= w < capacity ==> workers[w] == LoopTest
    {
      queue, stopFlag, mutex := [], false, Free;
      workers := seq(capacity, _ => LoopTest);
      callers := seq(clients, _ => Idle);
      submitted, dequeued, finished := [], [], multiset{};
    }

    /** worker_thread. Only a taken mutex holds up a worker that is not blocked. */
    method WorkerThread(w: nat)
      requires w < |workers| && workers[w] != Blocked && workers[w] != Exited
      requires workers[w] == Locking || workers[w] == Woken ==> mutex == Free
      requires workers[w] == Popping ==> queue != []
      modifies this
      ensures Enabled(old(Snapshot()), WorkerStep(w)) && Snapshot() == Next(old(Snapshot()), WorkerStep(w))
    {
      assert Enabled(Snapshot(), WorkerStep(w));
      hide Enabled;
      var next: WorkerPc;
      match workers[w] {
        case LoopTest =>
          next := if !stopFlag then Locking else Exited;
        case Locking =>
          mutex, next := ByWorker(w), Checking;
        case Woken =>
          mutex, next := ByWorker(w), Checking;
        case Checking =>
          next := if stopFlag || |queue| > 0 then Admitted else MustBlock;
        case MustBlock =>
          mutex, next := Free, Blocked;
        case Admitted =>
          next := if stopFlag && |queue| == 0 then Leaving else Popping;
        case Popping =>
          var task := queue[0];
          queue := queue[1..];
          dequeued := dequeued + [task];
          next := Popped(task);
        case Popped(task) =>
          mutex, next := Free, Executing(task);
        case Executing(task) =>
          finished := finished + multiset{task};
          next := LoopTest;
        case Leaving =>
          mutex, next := Free, Exited;
      }
      workers := workers[w := next];
    }

    /** A spurious wake-up: the condition variable may wake a blocked worker at any time. */
    method WakeSpuriously(w: nat)
      requires w < |workers| && workers[w] == Blocked
      modifies this
      ensures Enabled(old(Snapshot()), SpuriousWake(w)) && Snapshot() == Next(old(Snapshot()), SpuriousWake(w))
      ensures workers[w] == Woken
    {
      workers := workers[w := Woken];
    }

    /** A thread calls run. */
    method EnterRun(c: nat, task: Task)
      requires c < |callers| && callers[c] == Idle
      modifies this
      ensures Enabled(old(Snapshot()), Call(c, task)) && Snapshot() == Next(old(Snapshot()), Call(c, task))
      ensures callers[c] == Entering(task)
    {
      callers := callers[c := Entering(task)];
    }

    /** run, from the call to the release of the mutex. Only a taken mutex holds it up. */
    method Run(c: nat)
      requires c < |callers| && callers[c] != Idle && callers[c] != Notifying
      requires callers[c].Entering? ==> mutex == Free
      modifies this
      ensures Enabled(old(Snapshot()), CallerStep(c)) && Snapshot() == Next(old(Snapshot()), CallerStep(c))
      ensures old(callers[c]).Holding? ==> queue == old(queue) + [old(callers[c]).task]
    {
      match callers[c] {
        case Entering(task) =>
          mutex := ByCaller(c);
          callers := callers[c := Holding(task)];
        case Holding(task) =>
          queue := queue + [task];
          submitted := submitted + [task];
          callers := callers[c := Pushed];
        case Pushed =>
          mutex := Free;
          callers := callers[c := Notifying];
      }
    }

    /** The notify_one at the end of run: wakes some blocked worker if there is one. */
    method NotifyOne(c: nat) returns (woken: bool, w: nat)
      requires c < |callers| && callers[c] == Notifying
      modifies this
      ensures woken ==> Enabled(old(Snapshot()), Action.NotifyOne(c, w)) &&
                        Snapshot() == Next(old(Snapshot()), Action.NotifyOne(c, w))
      ensures !woken ==> Enabled(old(Snapshot()), NotifyNobody(c)) &&
                         Snapshot() == Next(old(Snapshot()), NotifyNobody(c))
    {
      woken, w := false, 0;
      if v :| 0 <= v < |workers| && workers[v] == Blocked {
        woken, w := true, v;
        workers := workers[v := Woken];
      }
      callers := callers[c := Idle];
    }

    /** The destructor's first statement. */
    method SetStop()
      modifies this
      ensures Enabled(old(Snapshot()), Action.SetStop) && Snapshot() == Next(old(Snapshot()), Action.SetStop)
    {
      stopFlag := true;
    }

    /** The destructor's second statement; it does not take the mutex. */
    method NotifyAll()
      requires stopFlag
      modifies this
      ensures Enabled(old(Snapshot()), Action.NotifyAll) && Snapshot() == Next(old(Snapshot()), Action.NotifyAll)
      ensures |workers| == |old(workers)| && forall w :: 0 <= w < |workers| ==>
        workers[w] == if old(workers)[w] == Blocked then Woken else old(workers)[w]
    {
      workers := WakeAll(workers);
    }
  }
}
